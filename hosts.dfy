/**
 * The same-host rule for freshly planned navigation: the hostname that
 * `new URL(target)` reports, checked against the request's `Host` header
 * with its port removed. The hostname follows the URL parsing algorithm of
 * the WHATWG URL Standard for an absolute URL without a base.
 */
module Hosts {
  import opened Common
  import opened JsText

  predicate IsAsciiLetter(c: char) {
    ('a' <= c <= 'z') || ('A' <= c <= 'Z')
  }

  predicate IsDigit(c: char) {
    '0' <= c <= '9'
  }

  predicate IsSchemeChar(c: char) {
    IsAsciiLetter(c) || IsDigit(c) || c == '+' || c == '-' || c == '.'
  }

  /** A URL scheme: an ASCII letter followed by letters, digits, `+`, `-`, `.`. */
  predicate ValidScheme(s: string) {
    && s != []
    && IsAsciiLetter(s[0])
    && forall i :: 0 <= i < |s| ==> IsSchemeChar(s[i])
  }

  /** The schemes the URL Standard calls special. */
  predicate SpecialScheme(s: string) {
    s in {"ftp", "file", "http", "https", "ws", "wss"}
  }

  /** A C0 control or a space: what the parser strips from both ends. */
  predicate IsControlOrSpace(c: char) {
    c <= ' '
  }

  predicate IsTabOrNewline(c: char) {
    c == '\t' || c == '\n' || c == '\r'
  }

  function StripLeading(s: string): (r: string)
    ensures |r| <= |s|
  {
    if s != [] && IsControlOrSpace(s[0]) then StripLeading(s[1..]) else s
  }

  function StripTrailing(s: string): (r: string)
    ensures |r| <= |s|
  {
    if s != [] && IsControlOrSpace(s[|s| - 1]) then StripTrailing(s[..|s| - 1]) else s
  }

  function RemoveTabsAndNewlines(s: string): (r: string)
    ensures |r| <= |s|
    ensures forall i :: 0 <= i < |r| ==> !IsTabOrNewline(r[i])
  {
    if s == [] then []
    else (if IsTabOrNewline(s[0]) then [] else [s[0]]) + RemoveTabsAndNewlines(s[1..])
  }

  /** The input as the parser reads it: leading and trailing C0 controls and
      spaces stripped, then every tab, line feed and carriage return removed. */
  function Clean(u: string): (r: string)
    ensures |r| <= |u|
  {
    RemoveTabsAndNewlines(StripTrailing(StripLeading(u)))
  }

  /** The scheme of `u` and what follows its colon; None when `u` does not
      start with a scheme, which without a base URL makes the parser fail. */
  function SplitScheme(u: string): Option<(string, string)> {
    var scheme := PrefixBefore(u, {':'});
    if |scheme| == |u| || !ValidScheme(scheme) then None
    else Some((scheme, u[|scheme| + 1..]))
  }

  /** The characters no host may hold. */
  predicate ForbiddenHostChar(c: char) {
    c in {'\0', '\t', '\n', '\r', ' ', '#', '/', ':', '<', '>', '?', '@', '[', '\\', ']', '^', '|'}
  }

  /** The characters a domain of a special URL may hold in this model:
      printable ASCII other than the forbidden host characters and `%`. */
  predicate IsDomainChar(c: char) {
    ' ' < c < '\U{7F}' && c != '%' && !ForbiddenHostChar(c)
  }

  /** The host of a special URL that is neither an IPv6 literal nor
      percent-encoded nor beyond ASCII: lower-cased; refused when it holds a
      forbidden character. */
  function DomainHost(buf: string): (r: Option<string>)
    ensures r.Some? <==> forall i :: 0 <= i < |buf| ==> IsDomainChar(buf[i])
    ensures r.Some? ==> r.value == Lower(buf)
  {
    if forall i :: 0 <= i < |buf| ==> IsDomainChar(buf[i]) then Some(Lower(buf)) else None
  }

  /** The host of a URL whose scheme is not special: kept as written, refused
      when it holds a forbidden character. */
  function OpaqueHost(buf: string): (r: Option<string>)
    ensures r.Some? <==> forall i :: 0 <= i < |buf| ==> !ForbiddenHostChar(buf[i])
    ensures r.Some? ==> r.value == buf
  {
    if forall i :: 0 <= i < |buf| ==> !ForbiddenHostChar(buf[i]) then Some(buf) else None
  }

  /** The host parser: a bracketed IPv6 literal, a domain for a special
      scheme, an opaque host otherwise. */
  function ParseHost(buf: string, special: bool): Option<string> {
    if buf != [] && buf[0] == '[' then
      if buf[|buf| - 1] != ']' then None else Some(Lower(buf))
    else if special then DomainHost(buf)
    else OpaqueHost(buf)
  }

  /** Where the host of `host[:port]` ends: at the first colon outside square
      brackets. */
  function HostEnd(s: string, inBrackets: bool): (n: nat)
    ensures n <= |s|
    ensures n < |s| ==> s[n] == ':'
  {
    if s == [] then 0
    else if s[0] == ':' && !inBrackets then 0
    else 1 + HostEnd(s[1..], if s[0] == '[' then true else if s[0] == ']' then false else inBrackets)
  }

  /** A port: decimal digits, and at most 65535 when present. */
  predicate ValidPort(p: string) {
    && (forall i :: 0 <= i < |p| ==> IsDigit(p[i]))
    && DecimalValue(p) <= 65535
  }

  function DecimalValue(p: string): nat {
    if p == [] then 0
    else DecimalValue(p[..|p| - 1]) * 10 + (if IsDigit(p[|p| - 1]) then p[|p| - 1] as int - '0' as int else 0)
  }

  /** The hostname of `host[:port]`: a colon with no host before it, a
      special URL without a host, and a port that is not a valid port all
      make the parser fail. */
  function HostAndPort(hp: string, special: bool): Option<string> {
    var n := HostEnd(hp, false);
    var buf := hp[..n];
    if n < |hp| && buf == [] then None
    else if special && buf == [] then None
    else if n < |hp| && !ValidPort(hp[n + 1..]) then None
    else ParseHost(buf, special)
  }

  /** What ends the authority: `/`, `?`, `#`, and `\` in a special URL. */
  function AuthorityStops(special: bool): set<char> {
    if special then {'/', '?', '#', '\\'} else {'/', '?', '#'}
  }

  /** The hostname of the authority that opens `s`: the host-and-port after
      its last `@`, and a failure when an `@` is followed by nothing. */
  function AuthorityHostname(s: string, special: bool): Option<string> {
    var auth := PrefixBefore(s, AuthorityStops(special));
    var hp := AfterLast(auth, '@');
    if '@' in auth && hp == [] then None
    else HostAndPort(hp, special)
  }

  /** `s` without the slashes and backslashes that open it. */
  function SkipSlashes(s: string): (r: string)
    ensures |r| <= |s|
    ensures r == [] || r[0] !in {'/', '\\'}
  {
    if s != [] && s[0] in {'/', '\\'} then SkipSlashes(s[1..]) else s
  }

  /** Two characters that a file URL reads as a Windows drive, not a host. */
  predicate WindowsDriveLetter(s: string) {
    |s| == 2 && IsAsciiLetter(s[0]) && s[1] in {':', '|'}
  }

  /** The hostname of a `file` URL given what follows its colon: empty unless
      two slashes open a host; a drive letter, an empty host and `localhost`
      all give the empty hostname. */
  function FileHostname(rest: string): Option<string> {
    if |rest| < 2 || rest[0] !in {'/', '\\'} || rest[1] !in {'/', '\\'} then Some("")
    else
      var buf := PrefixBefore(rest[2..], {'/', '\\', '?', '#'});
      if buf == [] || WindowsDriveLetter(buf) then Some("")
      else
        match ParseHost(buf, true)
        case None => None
        case Some(h) => Some(if h == "localhost" then "" else h)
  }

  /** `new URL(u).hostname`, or None where the constructor throws. A special
      scheme other than `file` reads an authority after any run of slashes
      and backslashes; another scheme only after `//`, and has the empty
      hostname otherwise. */
  function HostnameFromUrl(u: string): Option<string> {
    match SplitScheme(Clean(u))
    case None => None
    case Some((scheme, rest)) =>
      var s := Lower(scheme);
      if s == "file" then FileHostname(rest)
      else if SpecialScheme(s) then AuthorityHostname(SkipSlashes(rest), true)
      else if |rest| >= 2 && rest[..2] == "//" then AuthorityHostname(rest[2..], false)
      else Some("")
  }

  /** `host.split(':')[0]`: the `Host` header up to its first colon. */
  function HostWithoutPort(host: string): (r: string)
    ensures r <= host && ':' !in r
    ensures |r| < |host| ==> host[|r|] == ':'
  {
    PrefixBefore(host, {':'})
  }

  /** The guard in front of a freshly planned `goto`: a `Host` header is
      present and non-empty, the target has a non-empty hostname, and the two
      agree once the header's port is dropped. */
  predicate NavigationAllowed(url: string, host: Option<string>)
    ensures NavigationAllowed(url, host) ==> HostnameFromUrl(url).Some? && ':' !in HostnameFromUrl(url).value
  {
    && Given(host)
    && Given(HostnameFromUrl(url))
    && HostnameFromUrl(url).value == HostWithoutPort(host.value)
  }

  predicate IsHostChar(c: char) {
    ('a' <= c <= 'z') || IsDigit(c) || c == '.' || c == '-'
  }

  predicate DoubleHyphenAt(h: string, i: int)
    requires 0 <= i < |h| - 1
  {
    h[i] == '-' && h[i + 1] == '-'
  }

  /** A host name as it appears in a `Host` header and a URL alike: lower-case
      letters, digits, dots and hyphens, ending in a letter (so its last label
      is not all digits) and without `--` (so no punycode label). */
  predicate HostnameShape(h: string) {
    && h != []
    && (forall i :: 0 <= i < |h| ==> IsHostChar(h[i]))
    && 'a' <= h[|h| - 1] <= 'z'
    && forall i :: 0 <= i < |h| - 1 ==> !DoubleHyphenAt(h, i)
  }

  /** The last dot-separated label opens with `0x`. Under a special scheme
      such a host may be read as a hexadecimal IPv4 number, which this parser
      does not model. */
  predicate HexLastLabel(h: string) {
    "0x" <= AfterLast(h, '.')
  }

  /** A host name that every scheme reads as a domain: it has the shape
      above and its last label cannot be taken for an IPv4 number. */
  predicate PlainHostname(h: string) {
    HostnameShape(h) && !HexLastLabel(h)
  }

  /** Text the parser's clean-up leaves alone: no C0 control and no space. */
  predicate Visible(s: string) {
    forall i :: 0 <= i < |s| ==> s[i] > ' '
  }

  predicate PathStart(p: string) {
    p == [] || p[0] in {'/', '?', '#'}
  }

  lemma {:induction false} RemoveTabsVisible(s: string)
    requires Visible(s)
    ensures RemoveTabsAndNewlines(s) == s
  {
    if s != [] {
      RemoveTabsVisible(s[1..]);
    }
  }

  /** Text without controls or spaces passes the clean-up unchanged. */
  lemma CleanVisible(u: string)
    requires Visible(u)
    ensures Clean(u) == u
  {
    assert StripLeading(u) == u;
    assert StripTrailing(u) == u;
    RemoveTabsVisible(u);
  }

  lemma LowerPlain(h: string)
    requires HostnameShape(h)
    ensures Lower(h) == h
  {
  }

  lemma {:induction false} PrefixBeforeWhole(s: string, stops: set<char>)
    requires forall i :: 0 <= i < |s| ==> s[i] !in stops
    ensures PrefixBefore(s, stops) == s
  {
    if s != [] {
      PrefixBeforeWhole(s[1..], stops);
    }
  }

  lemma {:induction false} PrefixBeforeAppend(a: string, b: string, stops: set<char>)
    requires forall i :: 0 <= i < |a| ==> a[i] !in stops
    requires b == [] || b[0] in stops
    ensures PrefixBefore(a + b, stops) == a
  {
    if a == [] {
      assert a + b == b;
    } else {
      assert (a + b)[1..] == a[1..] + b;
      PrefixBeforeAppend(a[1..], b, stops);
    }
  }

  lemma {:induction false} AfterLastAppend(a: string, c: char, b: string)
    requires c !in b
    ensures AfterLast(a + [c] + b, c) == b
  {
    if a == [] {
      assert ([c] + b)[1..] == b;
    } else {
      assert (a + [c] + b)[1..] == a[1..] + [c] + b;
      AfterLastAppend(a[1..], c, b);
    }
  }

  /** The scheme is read back as everything before the first colon. */
  lemma SchemeThenRest(scheme: string, rest: string)
    requires ValidScheme(scheme)
    ensures SplitScheme(scheme + (":" + rest)) == Some((scheme, rest))
  {
    assert forall i :: 0 <= i < |scheme| ==> scheme[i] !in {':'};
    PrefixBeforeAppend(scheme, ":" + rest, {':'});
    assert (scheme + (":" + rest))[|scheme| + 1..] == rest;
  }

  /** A URL without controls or spaces splits at the colon after its scheme. */
  lemma UrlScheme(scheme: string, rest: string)
    requires ValidScheme(scheme) && Visible(scheme + (":" + rest))
    ensures SplitScheme(Clean(scheme + (":" + rest))) == Some((scheme, rest))
  {
    CleanVisible(scheme + (":" + rest));
    SchemeThenRest(scheme, rest);
  }

  lemma PlainHasNoForbidden(h: string)
    requires HostnameShape(h)
    ensures forall i :: 0 <= i < |h| ==> IsDomainChar(h[i]) && !ForbiddenHostChar(h[i])
    ensures forall i :: 0 <= i < |h| ==> h[i] !in {'/', '?', '#', '\\', ':', '@', '['}
  {
    forall i | 0 <= i < |h| ensures IsDomainChar(h[i]) && h[i] !in {'/', '?', '#', '\\', ':', '@', '['} {
      assert IsHostChar(h[i]);
    }
  }

  /** A plain host name is its own host, for every kind of scheme. */
  lemma ParsePlain(h: string, special: bool)
    requires HostnameShape(h)
    ensures ParseHost(h, special) == Some(h)
  {
    PlainHasNoForbidden(h);
    LowerPlain(h);
  }

  lemma {:induction false} HostEndNoColon(s: string, inBrackets: bool)
    requires forall i :: 0 <= i < |s| ==> s[i] !in {':', '['}
    ensures HostEnd(s, inBrackets) == |s|
  {
    if s != [] {
      HostEndNoColon(s[1..], if s[0] == ']' then false else inBrackets);
    }
  }

  lemma {:induction false} HostEndBeforeColon(h: string, rest: string)
    requires forall i :: 0 <= i < |h| ==> h[i] !in {':', '['}
    ensures HostEnd(h + ":" + rest, false) == |h|
  {
    if h == [] {
      assert (h + ":" + rest)[0] == ':';
    } else {
      assert (h + ":" + rest)[1..] == h[1..] + ":" + rest;
      HostEndBeforeColon(h[1..], rest);
    }
  }

  /** `host:port` and `host` alike give the host when the port is valid. */
  lemma HostAndPortPlain(h: string, port: string, special: bool)
    requires HostnameShape(h) && ValidPort(port)
    ensures HostAndPort(h + ":" + port, special) == Some(h)
    ensures HostAndPort(h, special) == Some(h)
  {
    PlainHasNoForbidden(h);
    HostEndBeforeColon(h, port);
    HostEndNoColon(h, false);
    var hp := h + ":" + port;
    assert hp[..|h|] == h && hp[|h| + 1..] == port;
    assert h[..|h|] == h;
    ParsePlain(h, special);
  }

  /** A port that is not a valid port makes the parser fail. */
  lemma HostAndPortBadPort(h: string, port: string, special: bool)
    requires HostnameShape(h) && !ValidPort(port)
    ensures HostAndPort(h + ":" + port, special) == None
  {
    PlainHasNoForbidden(h);
    HostEndBeforeColon(h, port);
    var hp := h + ":" + port;
    assert hp[..|h|] == h && hp[|h| + 1..] == port;
  }

  /** The authority ends at the first stop character. */
  lemma AuthorityThenPath(auth: string, path: string, special: bool)
    requires forall i :: 0 <= i < |auth| ==> auth[i] !in AuthorityStops(special)
    requires path == [] || path[0] in AuthorityStops(special)
    ensures AuthorityHostname(auth + path, special) ==
      (if '@' in auth && AfterLast(auth, '@') == [] then None else HostAndPort(AfterLast(auth, '@'), special))
  {
    PrefixBeforeAppend(auth, path, AuthorityStops(special));
  }

  lemma CredentialsAuthority(user: string, hp: string, special: bool)
    requires forall i :: 0 <= i < |user| ==> user[i] !in AuthorityStops(special)
    requires forall i :: 0 <= i < |hp| ==> hp[i] !in AuthorityStops(special) && hp[i] != '@'
    ensures forall i :: 0 <= i < |user + "@" + hp| ==> (user + "@" + hp)[i] !in AuthorityStops(special)
    ensures AfterLast(user + "@" + hp, '@') == hp
  {
    var auth := user + "@" + hp;
    forall i | 0 <= i < |auth| ensures auth[i] !in AuthorityStops(special) {
      if i < |user| { assert auth[i] == user[i]; }
      else if i > |user| { assert auth[i] == hp[i - |user| - 1]; }
    }
    assert '@' !in hp;
    AfterLastAppend(user, '@', hp);
  }

  lemma HostPortChars(h: string, port: string, special: bool)
    requires HostnameShape(h) && ValidPort(port)
    ensures forall i :: 0 <= i < |h + ":" + port| ==> (h + ":" + port)[i] !in AuthorityStops(special) && (h + ":" + port)[i] != '@'
  {
    PlainHasNoForbidden(h);
    var hp := h + ":" + port;
    forall i | 0 <= i < |hp| ensures hp[i] !in AuthorityStops(special) && hp[i] != '@' {
      if i < |h| { assert hp[i] == h[i]; }
      else if i > |h| { assert hp[i] == port[i - |h| - 1]; }
    }
  }

  /** The hostname of the authority `user@host:port` followed by a path. */
  lemma AuthorityWithCredentials(user: string, h: string, port: string, path: string, special: bool)
    requires HostnameShape(h) && ValidPort(port)
    requires forall i :: 0 <= i < |user| ==> user[i] !in AuthorityStops(special)
    requires path == [] || path[0] in AuthorityStops(special)
    ensures AuthorityHostname(user + "@" + h + ":" + port + path, special) == Some(h)
  {
    var hp := h + ":" + port;
    HostPortChars(h, port, special);
    CredentialsAuthority(user, hp, special);
    assert user + "@" + h + ":" + port + path == (user + "@" + hp) + path;
    AuthorityThenPath(user + "@" + hp, path, special);
    HostAndPortPlain(h, port, special);
  }

  /** The hostname of the authority `host` followed by a path. */
  lemma AuthorityPlain(h: string, path: string, special: bool)
    requires HostnameShape(h)
    requires path == [] || path[0] in AuthorityStops(special)
    ensures AuthorityHostname(h + path, special) == Some(h)
  {
    PlainHasNoForbidden(h);
    assert forall i :: 0 <= i < |h| ==> h[i] !in AuthorityStops(special);
    AuthorityThenPath(h, path, special);
    assert '@' !in h;
    HostAndPortPlain(h, "", special);
  }

  /** Both kinds of scheme read `host` out of `user@host:port` and a path. */
  lemma CredentialsEitherKind(user: string, h: string, port: string, path: string)
    requires HostnameShape(h) && ValidPort(port)
    requires forall i :: 0 <= i < |user| ==> user[i] !in {'/', '?', '#', '\\'}
    requires PathStart(path)
    ensures AuthorityHostname(user + "@" + h + ":" + port + path, true) == Some(h)
    ensures AuthorityHostname(user + "@" + h + ":" + port + path, false) == Some(h)
  {
    AuthorityWithCredentials(user, h, port, path, true);
    AuthorityWithCredentials(user, h, port, path, false);
  }

  /** Both kinds of scheme read `host` out of `host` and a path. */
  lemma PlainEitherKind(h: string, path: string)
    requires HostnameShape(h) && PathStart(path)
    ensures AuthorityHostname(h + path, true) == Some(h)
    ensures AuthorityHostname(h + path, false) == Some(h)
  {
    AuthorityPlain(h, path, true);
    AuthorityPlain(h, path, false);
  }

  /** What follows the colon of `scheme://rest` reaches the authority state
      at `rest`, for every scheme but `file`. */
  lemma AuthorityAfterSlashes(scheme: string, rest: string)
    requires ValidScheme(scheme) && Lower(scheme) != "file"
    requires Visible(scheme + "://" + rest)
    requires rest == [] || rest[0] !in {'/', '\\'}
    ensures HostnameFromUrl(scheme + "://" + rest) ==
      AuthorityHostname(rest, SpecialScheme(Lower(scheme)))
  {
    assert scheme + "://" + rest == scheme + (":" + ("//" + rest));
    UrlScheme(scheme, "//" + rest);
    assert ("//" + rest)[2..] == rest;
    if SpecialScheme(Lower(scheme)) {
      assert SkipSlashes("//" + rest) == SkipSlashes(("//" + rest)[1..]) == SkipSlashes(rest);
    }
  }

  lemma VisibleAppend(a: string, b: string)
    requires Visible(a) && Visible(b)
    ensures Visible(a + b)
  {
    forall i | 0 <= i < |a + b| ensures (a + b)[i] > ' ' {
      if i < |a| { assert (a + b)[i] == a[i]; } else { assert (a + b)[i] == b[i - |a|]; }
    }
  }

  lemma SchemeVisible(scheme: string)
    requires ValidScheme(scheme)
    ensures Visible(scheme) && Visible(scheme + ":") && Visible(scheme + "://")
  {
    forall i | 0 <= i < |scheme| ensures scheme[i] > ' ' {
      assert IsSchemeChar(scheme[i]);
    }
    VisibleAppend(scheme, ":");
    VisibleAppend(scheme, "://");
  }

  lemma PlainVisible(h: string)
    requires HostnameShape(h)
    ensures Visible(h)
  {
    forall i | 0 <= i < |h| ensures h[i] > ' ' {
      assert IsHostChar(h[i]);
    }
  }

  lemma PortVisible(port: string)
    requires ValidPort(port)
    ensures Visible(port)
  {
    forall i | 0 <= i < |port| ensures port[i] > ' ' { assert IsDigit(port[i]); }
  }

  /** `host:port`, a valid port included, has no control, space, stop or `@`. */
  lemma HostPortVisible(h: string, port: string)
    requires HostnameShape(h) && ValidPort(port)
    ensures Visible(h + ":" + port)
  {
    PlainVisible(h);
    assert Visible(port) by {
      forall i | 0 <= i < |port| ensures port[i] > ' ' { assert IsDigit(port[i]); }
    }
    VisibleAppend(h, ":");
    VisibleAppend(h + ":", port);
  }

  /** The parser reads the host name back from a URL built from it, with
      credentials in front, a valid port behind and a path after, under every
      scheme but `file`; under a special scheme the host must not end in a
      label that could be an IPv4 number. */
  lemma HostnameRoundTrip(scheme: string, user: string, h: string, port: string, path: string)
    requires ValidScheme(scheme) && Lower(scheme) != "file" && HostnameShape(h)
    requires SpecialScheme(Lower(scheme)) ==> !HexLastLabel(h)
    requires Visible(user) && forall i :: 0 <= i < |user| ==> user[i] !in {'/', '?', '#', '\\'}
    requires ValidPort(port)
    requires Visible(path) && PathStart(path)
    ensures HostnameFromUrl(scheme + "://" + user + "@" + h + ":" + port + path) == Some(h)
  {
    ShapeRoundTripWithCredentials(scheme, user, h, port, path);
  }

  /** The parser as modelled reads any shaped host back from a URL with
      credentials, port and path, a `0x` last label included: it keeps such
      a label as written where the URL standard may read an IPv4 number. */
  lemma ShapeRoundTripWithCredentials(scheme: string, user: string, h: string, port: string, path: string)
    requires ValidScheme(scheme) && Lower(scheme) != "file" && HostnameShape(h)
    requires Visible(user) && forall i :: 0 <= i < |user| ==> user[i] !in {'/', '?', '#', '\\'}
    requires ValidPort(port)
    requires Visible(path) && PathStart(path)
    ensures HostnameFromUrl(scheme + "://" + user + "@" + h + ":" + port + path) == Some(h)
  {
    var rest := user + "@" + h + ":" + port + path;
    assert scheme + "://" + user + "@" + h + ":" + port + path == scheme + "://" + rest;
    SchemeVisible(scheme);
    PlainVisible(h);
    PortVisible(port);
    VisibleAppend(user, "@");
    VisibleAppend(user + "@", h);
    VisibleAppend(user + "@" + h, ":");
    VisibleAppend(user + "@" + h + ":", port);
    VisibleAppend(user + "@" + h + ":" + port, path);
    VisibleAppend(scheme + "://", rest);
    assert rest[0] !in {'/', '\\'} by {
      if user != [] { assert rest[0] == user[0]; } else { assert rest[0] == '@'; }
    }
    AuthorityAfterSlashes(scheme, rest);
    CredentialsEitherKind(user, h, port, path);
  }

  /** ... and from a URL with neither credentials nor port. */
  lemma PlainHostnameRoundTrip(scheme: string, h: string, path: string)
    requires ValidScheme(scheme) && Lower(scheme) != "file" && HostnameShape(h)
    requires SpecialScheme(Lower(scheme)) ==> !HexLastLabel(h)
    requires Visible(path) && PathStart(path)
    ensures HostnameFromUrl(scheme + "://" + h + path) == Some(h)
  {
    ShapeRoundTrip(scheme, h, path);
  }

  /** The parser as modelled reads any shaped host back from
      `scheme://host/path`, a `0x` last label included. */
  lemma ShapeRoundTrip(scheme: string, h: string, path: string)
    requires ValidScheme(scheme) && Lower(scheme) != "file" && HostnameShape(h)
    requires Visible(path) && PathStart(path)
    ensures HostnameFromUrl(scheme + "://" + h + path) == Some(h)
  {
    var special := SpecialScheme(Lower(scheme));
    var rest := h + path;
    assert scheme + "://" + h + path == scheme + "://" + rest;
    SchemeVisible(scheme);
    PlainVisible(h);
    VisibleAppend(h, path);
    VisibleAppend(scheme + "://", rest);
    assert IsHostChar(h[0]) && rest[0] == h[0];
    AuthorityAfterSlashes(scheme, rest);
    PlainEitherKind(h, path);
  }

  /** A port that is not digits, or is above 65535, makes the parser throw. */
  lemma BadPortRefused(scheme: string, h: string, port: string)
    requires ValidScheme(scheme) && Lower(scheme) != "file" && HostnameShape(h)
    requires Visible(port) && forall i :: 0 <= i < |port| ==> port[i] !in {'/', '?', '#', '\\', '@'}
    requires !ValidPort(port)
    ensures HostnameFromUrl(scheme + "://" + h + ":" + port) == None
  {
    var special := SpecialScheme(Lower(scheme));
    var rest := h + ":" + port;
    assert scheme + "://" + h + ":" + port == scheme + "://" + rest;
    SchemeVisible(scheme);
    PlainVisible(h);
    VisibleAppend(h, ":");
    VisibleAppend(h + ":", port);
    VisibleAppend(scheme + "://", rest);
    assert IsHostChar(h[0]) && rest[0] == h[0];
    AuthorityAfterSlashes(scheme, rest);
    if special {
      BadPortAuthority(h, port, true);
    } else {
      BadPortAuthority(h, port, false);
    }
  }

  lemma BadPortAuthority(h: string, port: string, special: bool)
    requires HostnameShape(h) && !ValidPort(port)
    requires forall i :: 0 <= i < |port| ==> port[i] !in {'/', '?', '#', '\\', '@'}
    ensures AuthorityHostname(h + ":" + port, special) == None
  {
    var rest := h + ":" + port;
    PlainHasNoForbidden(h);
    assert forall i :: 0 <= i < |rest| ==> rest[i] !in AuthorityStops(special) && rest[i] != '@' by {
      forall i | 0 <= i < |rest| ensures rest[i] !in AuthorityStops(special) && rest[i] != '@' {
        if i < |h| { assert rest[i] == h[i]; }
        else if i > |h| { assert rest[i] == port[i - |h| - 1]; }
      }
    }
    assert rest + [] == rest;
    AuthorityThenPath(rest, [], special);
    assert AfterLast(rest, '@') == rest;
    HostAndPortBadPort(h, port, special);
  }

  /** In a special URL a backslash ends the host as a slash does; under any
      other scheme it is part of the host, which it makes invalid. */
  lemma BackslashEndsAuthority(scheme: string, h: string, path: string)
    requires ValidScheme(scheme) && Lower(scheme) != "file" && HostnameShape(h)
    requires SpecialScheme(Lower(scheme)) ==> !HexLastLabel(h)
    requires Visible(path)
    ensures SpecialScheme(Lower(scheme)) ==> HostnameFromUrl(scheme + "://" + h + "\\" + path) == Some(h)
    ensures !SpecialScheme(Lower(scheme)) && PathStart(path) ==> HostnameFromUrl(scheme + "://" + h + "\\" + path) == None
  {
    var special := SpecialScheme(Lower(scheme));
    var rest := h + ("\\" + path);
    assert scheme + "://" + h + "\\" + path == scheme + "://" + rest;
    SchemeVisible(scheme);
    PlainVisible(h);
    VisibleAppend("\\", path);
    VisibleAppend(h, "\\" + path);
    VisibleAppend(scheme + "://", rest);
    assert IsHostChar(h[0]) && rest[0] == h[0];
    AuthorityAfterSlashes(scheme, rest);
    if special {
      AuthorityPlain(h, "\\" + path, true);
    } else if PathStart(path) {
      AppendAssoc(h, "\\", path);
      BackslashInOpaqueHost(h, path);
    }
  }

  lemma BackslashInOpaqueHost(h: string, path: string)
    requires HostnameShape(h) && PathStart(path)
    ensures AuthorityHostname((h + "\\") + path, false) == None
  {
    PlainHasNoForbidden(h);
    var hb := h + "\\";
    assert forall i :: 0 <= i < |hb| ==> hb[i] !in AuthorityStops(false) && hb[i] !in {':', '[', '@'} by {
      forall i | 0 <= i < |hb| ensures hb[i] !in AuthorityStops(false) && hb[i] !in {':', '[', '@'} {
        if i < |h| { assert hb[i] == h[i]; }
      }
    }
    AuthorityThenPath(hb, path, false);
    assert '@' !in hb;
    HostEndNoColon(hb, false);
    assert hb[..|hb|] == hb;
    assert ForbiddenHostChar(hb[|h|]);
  }

  /** A special scheme other than `file` needs no slashes before the host,
      and takes any run of slashes and backslashes there; with nothing after
      the colon the parser throws. */
  lemma SlashlessSpecial(scheme: string, slashes: string, h: string, path: string)
    requires ValidScheme(scheme) && Lower(scheme) != "file" && SpecialScheme(Lower(scheme))
    requires PlainHostname(h) && Visible(path) && PathStart(path)
    requires forall i :: 0 <= i < |slashes| ==> slashes[i] in {'/', '\\'}
    ensures HostnameFromUrl(scheme + ":" + slashes + h + path) == Some(h)
    ensures HostnameFromUrl(scheme + ":") == None
  {
    ShapeSlashless(scheme, slashes, h, path);
    SchemeAloneRefused(scheme);
  }

  /** The parser as modelled skips any run of slashes before a shaped host,
      a `0x` last label included. */
  lemma ShapeSlashless(scheme: string, slashes: string, h: string, path: string)
    requires ValidScheme(scheme) && Lower(scheme) != "file" && SpecialScheme(Lower(scheme))
    requires HostnameShape(h) && Visible(path) && PathStart(path)
    requires forall i :: 0 <= i < |slashes| ==> slashes[i] in {'/', '\\'}
    ensures HostnameFromUrl(scheme + ":" + slashes + h + path) == Some(h)
  {
    var rest := slashes + (h + path);
    assert scheme + ":" + slashes + h + path == scheme + (":" + rest);
    SchemeVisible(scheme);
    PlainVisible(h);
    assert Visible(slashes) by {
      forall i | 0 <= i < |slashes| ensures slashes[i] > ' ' { assert slashes[i] in {'/', '\\'}; }
    }
    VisibleAppend(h, path);
    VisibleAppend(slashes, h + path);
    VisibleAppend(scheme + ":", rest);
    assert scheme + ":" + rest == scheme + (":" + rest);
    UrlScheme(scheme, rest);
    assert IsHostChar(h[0]);
    SkipSlashRun(slashes, h + path);
    AuthorityPlain(h, path, true);
  }

  lemma SchemeAloneRefused(scheme: string)
    requires ValidScheme(scheme) && Lower(scheme) != "file" && SpecialScheme(Lower(scheme))
    ensures HostnameFromUrl(scheme + ":") == None
  {
    SchemeVisible(scheme);
    assert scheme + ":" == scheme + (":" + "");
    UrlScheme(scheme, "");
    assert PrefixBefore("", AuthorityStops(true)) == "";
  }

  lemma {:induction false} SkipSlashRun(slashes: string, t: string)
    requires forall i :: 0 <= i < |slashes| ==> slashes[i] in {'/', '\\'}
    requires t == [] || t[0] !in {'/', '\\'}
    ensures SkipSlashes(slashes + t) == t
  {
    if slashes == [] {
      assert slashes + t == t;
    } else {
      assert (slashes + t)[1..] == slashes[1..] + t;
      SkipSlashRun(slashes[1..], t);
    }
  }

  /** A `file` URL names its host after two slashes, except that `localhost`
      names no host at all. */
  lemma FileHostnameOf(scheme: string, h: string, path: string)
    requires ValidScheme(scheme) && Lower(scheme) == "file" && PlainHostname(h)
    requires Visible(path) && PathStart(path)
    ensures HostnameFromUrl(scheme + "://" + h + path) == Some(if h == "localhost" then "" else h)
  {
    ShapeFileHostname(scheme, h, path);
  }

  /** The parser as modelled reads any shaped `file` host, a `0x` last label
      included, and drops `localhost`. */
  lemma ShapeFileHostname(scheme: string, h: string, path: string)
    requires ValidScheme(scheme) && Lower(scheme) == "file" && HostnameShape(h)
    requires Visible(path) && PathStart(path)
    ensures HostnameFromUrl(scheme + "://" + h + path) == Some(if h == "localhost" then "" else h)
  {
    var rest := "//" + (h + path);
    assert scheme + "://" + h + path == scheme + (":" + rest);
    SchemeVisible(scheme);
    PlainVisible(h);
    VisibleAppend(h, path);
    VisibleAppend(scheme + "://", h + path);
    assert scheme + "://" + (h + path) == scheme + (":" + rest);
    UrlScheme(scheme, rest);
    FileHostOf(h, path);
  }

  lemma FileHostOf(h: string, path: string)
    requires HostnameShape(h) && PathStart(path)
    ensures FileHostname("//" + (h + path)) == Some(if h == "localhost" then "" else h)
  {
    var rest := "//" + (h + path);
    PlainHasNoForbidden(h);
    assert rest[2..] == h + path;
    assert forall i :: 0 <= i < |h| ==> h[i] !in {'/', '\\', '?', '#'};
    PrefixBeforeAppend(h, path, {'/', '\\', '?', '#'});
    assert !WindowsDriveLetter(h) by {
      if |h| == 2 { assert IsHostChar(h[1]); }
    }
    ParsePlain(h, true);
  }

  lemma PortDropped(h: string, port: string)
    requires HostnameShape(h)
    ensures HostWithoutPort(h + ":" + port) == h
    ensures HostWithoutPort(h) == h
  {
    PlainHasNoForbidden(h);
    assert h + ":" + port == h + (":" + port);
    PrefixBeforeAppend(h, ":" + port, {':'});
    PrefixBeforeWhole(h, {':'});
  }

  /** Navigation to a page of the host that served the request is let
      through, whatever port the `Host` header carries. */
  lemma SameHostAllowed(scheme: string, h: string, port: string, path: string)
    requires ValidScheme(scheme) && Lower(scheme) != "file" && HostnameShape(h)
    requires SpecialScheme(Lower(scheme)) ==> !HexLastLabel(h)
    requires Visible(path) && PathStart(path)
    ensures NavigationAllowed(scheme + "://" + h + path, Some(h + ":" + port))
    ensures NavigationAllowed(scheme + "://" + h + path, Some(h))
  {
    PlainHostnameRoundTrip(scheme, h, path);
    PortDropped(h, port);
  }

  /** Navigation to any other host name is refused, under every scheme, and
      so is every target when the request carried no usable `Host` header. */
  lemma OtherHostRefused(scheme: string, h: string, other: string, port: string, path: string)
    requires ValidScheme(scheme) && HostnameShape(h) && HostnameShape(other) && other != h
    requires Visible(path) && PathStart(path)
    ensures !NavigationAllowed(scheme + "://" + other + path, Some(h + ":" + port))
    ensures !NavigationAllowed(scheme + "://" + h + path, None)
    ensures !NavigationAllowed(scheme + "://" + h + path, Some(""))
  {
    if Lower(scheme) == "file" {
      ShapeFileHostname(scheme, other, path);
    } else {
      ShapeRoundTrip(scheme, other, path);
    }
    PortDropped(h, port);
  }
}
