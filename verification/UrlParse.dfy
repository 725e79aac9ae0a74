/**
 The `scheme://host:port` parsers, each as it is written: the resolver's DoT and DoH parsers, the
 DoH parser of the upstream handlers and the generic parser of the health checks. Each is proved
 to accept exactly one grammar, and from that they are compared.
 */
module UrlParse {
  import opened Text
  import opened Decimal

  type HostPort = (string, nat)

  predicate AllDigits(s: string) { forall c :: c in s ==> IsDigit(c) }

  /** `parse::<u16>()`. */
  function ParseU16(s: string): (r: Option<nat>)
    ensures r.Some? ==> r.value <= 65535
  {
    var digits := if s != "" && s[0] == '+' then s[1..] else s;
    if digits == "" || !AllDigits(digits) || NumberOf(digits) > 65535 then None
    else Some(NumberOf(digits))
  }

  // ----- The four parsers -----

  /** `parse_dot_url`. */
  function ParseDotUrl(url: string): Option<HostPort> {
    if !StartsWith(url, "tls://") then None
    else
      var rest := url[6..];
      if rest == "" then None
      else
        var slash := Find(rest, '/');
        var split := DotHostPort(if slash.Some? then rest[..slash.value] else rest);
        if split.Some? && split.value.0 == "" then None else split
  }

  /** Its reading of the authority. */
  function DotHostPort(authority: string): Option<HostPort> {
    if StartsWith(authority, "[") then
      var end := RFind(authority, ']');
      if end.None? then None
      else
        var portPart := authority[end.value + 1..];
        if portPart == "" then Some((authority[1..end.value], 853))
        else if portPart[0] != ':' || ParseU16(portPart[1..]).None? then None
        else Some((authority[1..end.value], ParseU16(portPart[1..]).value))
    else
      match RFind(authority, ':')
      case Some(i) =>
        (match ParseU16(authority[i + 1..]) case None => None case Some(port) => Some((authority[..i], port)))
      case None => Some((authority, 853))
  }

  /** `parse_doh_url`. */
  function ParseDohUrl(url: string): Option<(string, nat, string)> {
    if !StartsWith(url, "https://") then None
    else
      var rest := url[8..];
      if rest == "" then None
      else
        var slash := Find(rest, '/');
        var authority := if slash.Some? then rest[..slash.value] else rest;
        var path := if slash.Some? then rest[slash.value..] else "/dns-query";
        var split := DohHostPort(authority);
        if split.None? || split.value.0 == "" then None else Some((split.value.0, split.value.1, path))
  }

  /** Its reading of the authority. */
  function DohHostPort(authority: string): Option<HostPort> {
    if StartsWith(authority, "[") then
      match RFind(authority, ']')
      case None => None
      case Some(end) =>
        if end + 1 == |authority| then Some((authority[1..end], 443))
        else if authority[end + 1] == ':' then
          (match ParseU16(authority[end + 2..]) case Some(port) => Some((authority[1..end], port)) case None => None)
        else None
    else
      var colon := RFind(authority, ':');
      if colon.None? then Some((authority, 443))
      else if ParseU16(authority[colon.value + 1..]).None? then None
      else Some((authority[..colon.value], ParseU16(authority[colon.value + 1..]).value))
  }

  /** `parse_doh_host_port`. */
  function ParseDohHostPort(url: string): Option<(string, nat, string)> {
    if !StartsWith(url, "https://") then None
    else
      var rest := url[8..];
      match Find(rest, '/')
      case Some(slash) => HostPortPath(rest[..slash], rest[slash..])
      case None => HostPortPath(rest, "/dns-query")
  }

  /** Its reading of the authority, with the path. */
  function HostPortPath(authority: string, path: string): Option<(string, nat, string)> {
    if authority != "" && authority[0] == '[' then
      match RFind(authority, ']')
      case None => None
      case Some(end) =>
        var host, portPart := authority[1..end], authority[end + 1..];
        var port := if portPart == "" then Some(443) else
          match StripPrefix(portPart, ":") case None => None case Some(digits) => ParseU16(digits);
        if port.None? || host == "" then None else Some((host, port.value, path))
    else
      match RFind(authority, ':')
      case Some(i) =>
        var port := ParseU16(authority[i + 1..]);
        if port.None? || authority[..i] == "" then None else Some((authority[..i], port.value, path))
      case None => if authority == "" then None else Some((authority, 443, path))
  }

  /** `parse_url_host_port`. */
  function ParseUrlHostPort(url: string, prefix: string, defaultPort: nat): Option<HostPort> {
    match StripPrefix(url, prefix)
    case None => None
    case Some(rest) =>
      var authority := match Find(rest, '/') case Some(i) => rest[..i] case None => rest;
      if authority == "" then None
      else if authority[0] == '[' then V6HostPort(authority, defaultPort)
      else NameHostPort(authority, defaultPort)
  }

  /** Its reading of a host name. */
  function NameHostPort(authority: string, defaultPort: nat): Option<HostPort> {
    match RFind(authority, ':')
    case None => Some((authority, defaultPort))
    case Some(i) =>
      match ParseU16(authority[i + 1..])
      case None => None
      case Some(port) => Some((authority[..i], port))
  }

  /** Its reading of an address literal. */
  function V6HostPort(authority: string, defaultPort: nat): Option<HostPort>
    requires authority != "" && authority[0] == '['
  {
    match RFind(authority, ']')
    case None => None
    case Some(end) =>
      var host, portPart := authority[1..end], authority[end + 1..];
      if portPart == "" then Some((host, defaultPort))
      else if portPart[0] != ':' then None
      else
        match ParseU16(portPart[1..])
        case None => None
        case Some(port) => Some((host, port))
  }

  // ----- The grammar -----

  /** A port as the standard library reads it: digits, with or without a plus sign, up to 65535. */
  ghost predicate PortText(t: string, p: nat) {
    exists digits :: (t == digits || t == "+" + digits) && Digits(digits, p)
  }

  predicate Digits(digits: string, p: nat) {
    digits != "" && AllDigits(digits) && NumberOf(digits) == p <= 65535
  }

  predicate IsBracketed(a: string) { a != "" && a[0] == '[' }

  /** `[h]`, `[h]:port`, `h` without a colon, or `h:port`. */
  ghost predicate AuthorityIs(a: string, h: string, p: nat, defaultPort: nat) {
    || (a == "[" + h + "]" && p == defaultPort)
    || (exists t :: PortText(t, p) && a == "[" + h + "]:" + t)
    || (!IsBracketed(a) && a == h && ':' !in h && p == defaultPort)
    || (!IsBracketed(a) && exists t :: PortText(t, p) && a == h + ":" + t)
  }

  /** The prefix, an authority without a slash, then nothing or a path. */
  predicate UrlIs(url: string, prefix: string, a: string, path: string) {
    url == prefix + (a + path) && '/' !in a && (path == "" || path[0] == '/')
  }

  ghost predicate Url(url: string, prefix: string, h: string, p: nat, defaultPort: nat, path: string) {
    exists a :: UrlIs(url, prefix, a, path) && AuthorityIs(a, h, p, defaultPort)
  }

  // ----- Ports -----

  lemma NoSign(t: string)
    requires AllDigits(t)
    ensures '+' !in t && ':' !in t && ']' !in t && '/' !in t
  {
  }

  lemma PortIs(t: string, p: nat)
    ensures ParseU16(t) == Some(p) <==> PortText(t, p)
  {
    if ParseU16(t) == Some(p) {
      var digits := if t != "" && t[0] == '+' then t[1..] else t;
      assert t == digits || t == "+" + digits;
      assert Digits(digits, p);
    }
    if PortText(t, p) {
      var digits :| (t == digits || t == "+" + digits) && Digits(digits, p);
      assert digits[0] in digits;
      assert t == "+" + digits ==> t[1..] == digits;
    }
  }

  lemma PortPlain(t: string, p: nat)
    requires PortText(t, p)
    ensures ':' !in t && ']' !in t && '/' !in t && t != ""
  {
    var digits :| (t == digits || t == "+" + digits) && Digits(digits, p);
    NoSign(digits);
  }

  // ----- Authorities -----

  /** `s` is `a`, the last `c`, and `b`. */
  lemma LastIndex(a: string, c: char, b: string)
    requires c !in b
    ensures RFind(a + [c] + b, c) == Some(|a|)
  {
    var s := a + [c] + b;
    assert s[|a| + 1..] == b;
    RFindIs(s, c, |a|);
  }

  lemma AtLast(s: string, c: char, i: nat)
    requires RFind(s, c) == Some(i)
    ensures s == s[..i] + [c] + s[i + 1..]
  {
  }

  /** Cut at its last bracket, a bracketed authority is its host and what follows. */
  lemma BracketCut(h: string, t: string)
    requires ']' !in t
    ensures var a := "[" + h + "]" + t;
            IsBracketed(a) && RFind(a, ']') == Some(|h| + 1) && a[1..|h| + 1] == h && a[|h| + 2..] == t
  {
    var a := "[" + h + "]" + t;
    assert a == ("[" + h) + [']'] + t;
    LastIndex("[" + h, ']', t);
  }

  /** A bracketed authority read at its last bracket. */
  predicate BracketRead(a: string, h: string, p: nat, d: nat)
    requires IsBracketed(a)
  {
    match RFind(a, ']')
    case None => false
    case Some(end) =>
      && h == a[1..end]
      && if end + 1 == |a| then p == d else a[end + 1] == ':' && ParseU16(a[end + 2..]) == Some(p)
  }

  lemma BracketBare(h: string, d: nat)
    ensures IsBracketed("[" + h + "]") && BracketRead("[" + h + "]", h, d, d)
  {
    assert "[" + h + "]" == "[" + h + "]" + "";
    BracketCut(h, "");
  }

  lemma BracketPort(h: string, t: string, p: nat, d: nat)
    requires PortText(t, p)
    ensures var a := "[" + h + "]:" + t; IsBracketed(a) && BracketRead(a, h, p, d)
  {
    var a, tail := "[" + h + "]:" + t, ":" + t;
    PortPlain(t, p);
    assert a == "[" + h + "]" + tail;
    BracketCut(h, tail);
    PortIs(t, p);
    assert a[|h| + 2..][0] == ':' && a[|h| + 3..] == t;
  }

  lemma BracketBack(a: string, h: string, p: nat, d: nat)
    requires IsBracketed(a) && BracketRead(a, h, p, d)
    ensures AuthorityIs(a, h, p, d)
  {
    var end := RFind(a, ']').value;
    AtLast(a, ']', end);
    assert a[..end] == "[" + h;
    if end + 1 == |a| {
      assert a == "[" + h + "]";
    } else {
      PortIs(a[end + 2..], p);
      BracketJoin(a, h, end);
    }
  }

  lemma BracketJoin(a: string, h: string, end: nat)
    requires end + 1 < |a| && a[..end] == "[" + h && a[end] == ']' && a[end + 1] == ':'
    ensures a == "[" + h + "]:" + a[end + 2..]
  {
    assert a == a[..end] + [a[end]] + [a[end + 1]] + a[end + 2..];
  }

  lemma BracketGrammar(a: string, h: string, p: nat, d: nat)
    requires IsBracketed(a)
    ensures AuthorityIs(a, h, p, d) <==> BracketRead(a, h, p, d)
  {
    if BracketRead(a, h, p, d) {
      BracketBack(a, h, p, d);
    } else if a == "[" + h + "]" && p == d {
      BracketBare(h, d);
    } else if t :| PortText(t, p) && a == "[" + h + "]:" + t {
      BracketPort(h, t, p, d);
    }
  }

  /** Any other authority read at its last colon. */
  predicate NameRead(a: string, h: string, p: nat, d: nat) {
    match RFind(a, ':')
    case None => h == a && p == d
    case Some(i) => h == a[..i] && ParseU16(a[i + 1..]) == Some(p)
  }

  lemma NamePort(h: string, t: string, p: nat, d: nat)
    requires PortText(t, p)
    ensures NameRead(h + ":" + t, h, p, d)
  {
    var a := h + ":" + t;
    PortPlain(t, p);
    LastIndex(h, ':', t);
    PortIs(t, p);
    assert a[..|h|] == h && a[|h| + 1..] == t;
  }

  lemma NameBack(a: string, h: string, p: nat, d: nat)
    requires !IsBracketed(a) && NameRead(a, h, p, d)
    ensures AuthorityIs(a, h, p, d)
  {
    if RFind(a, ':').Some? {
      var i := RFind(a, ':').value;
      AtLast(a, ':', i);
      PortIs(a[i + 1..], p);
      assert a == h + ":" + a[i + 1..];
    }
  }

  lemma NameGrammar(a: string, h: string, p: nat, d: nat)
    requires !IsBracketed(a)
    ensures AuthorityIs(a, h, p, d) <==> NameRead(a, h, p, d)
  {
    if NameRead(a, h, p, d) {
      NameBack(a, h, p, d);
    } else if t :| PortText(t, p) && a == h + ":" + t {
      NamePort(h, t, p, d);
    } else {
      NotOpened(a, h);
      assert RFind(h, ':').Some? <==> ':' in h;
    }
  }

  lemma NotOpened(a: string, h: string)
    requires !IsBracketed(a)
    ensures a != "[" + h + "]" && forall t :: a != "[" + h + "]:" + t
  {
    forall t ensures a != "[" + h + "]:" + t {
      assert ("[" + h + "]:" + t)[0] == '[';
    }
  }

  // ----- URLs -----

  function AuthorityOf(rest: string): string {
    match Find(rest, '/') case Some(i) => rest[..i] case None => rest
  }

  lemma Cut(a: string, path: string)
    requires '/' !in a && (path == "" || path[0] == '/')
    ensures AuthorityOf(a + path) == a && (Find(a + path, '/') == if path == "" then None else Some(|a|))
    ensures path != "" ==> (a + path)[|a|..] == path
  {
    var s := a + path;
    if path == "" {
      assert s == a;
    } else {
      assert s[..|a|] == a && s[|a|..] == path;
      FindIs(s, '/', |a|);
    }
  }

  lemma Strip(prefix: string, rest: string)
    ensures StartsWith(prefix + rest, prefix) && (prefix + rest)[|prefix|..] == rest
  {
    assert (prefix + rest)[..|prefix|] == prefix;
  }

  /** The parts of a URL are determined: what follows the prefix, up to the first slash, and the rest. */
  lemma UrlParts(url: string, prefix: string, a: string, path: string)
    requires UrlIs(url, prefix, a, path)
    ensures StartsWith(url, prefix) && url[|prefix|..] == a + path && AuthorityOf(a + path) == a
    ensures Find(a + path, '/') == if path == "" then None else Some(|a|)
    ensures path != "" ==> (a + path)[|a|..] == path
  {
    Strip(prefix, a + path);
    Cut(a, path);
  }

  lemma UrlSplit(url: string, prefix: string)
    requires StartsWith(url, prefix)
    ensures var rest := url[|prefix|..];
            UrlIs(url, prefix, AuthorityOf(rest), if Find(rest, '/').Some? then rest[Find(rest, '/').value..] else "")
  {
    var rest := url[|prefix|..];
    assert url == prefix + rest;
    if Find(rest, '/').Some? {
      var i := Find(rest, '/').value;
      assert rest == rest[..i] + rest[i..];
    } else {
      assert rest == rest + "";
    }
  }

  /** A URL of the grammar, seen from its only split. */
  lemma UrlAt(url: string, prefix: string, h: string, p: nat, d: nat, path: string)
    ensures Url(url, prefix, h, p, d, path) <==>
            && StartsWith(url, prefix)
            && var rest := url[|prefix|..];
               AuthorityIs(AuthorityOf(rest), h, p, d)
               && path == if Find(rest, '/').Some? then rest[Find(rest, '/').value..] else ""
  {
    if Url(url, prefix, h, p, d, path) {
      var a :| UrlIs(url, prefix, a, path) && AuthorityIs(a, h, p, d);
      UrlParts(url, prefix, a, path);
    }
    if StartsWith(url, prefix) {
      UrlSplit(url, prefix);
    }
  }

  /** The authority read either way. */
  predicate Reads(a: string, h: string, p: nat, d: nat) {
    if IsBracketed(a) then BracketRead(a, h, p, d) else NameRead(a, h, p, d)
  }

  lemma AuthorityGrammar(a: string, h: string, p: nat, d: nat)
    ensures AuthorityIs(a, h, p, d) <==> Reads(a, h, p, d)
  {
    if IsBracketed(a) { BracketGrammar(a, h, p, d); } else { NameGrammar(a, h, p, d); }
  }

  lemma Opening(a: string)
    ensures StartsWith(a, "[") <==> IsBracketed(a)
  {
    if IsBracketed(a) { assert a[..1] == "["; }
  }

  lemma AnyPath(url: string, prefix: string, h: string, p: nat, d: nat)
    ensures (exists path :: Url(url, prefix, h, p, d, path)) <==>
            StartsWith(url, prefix) && AuthorityIs(AuthorityOf(url[|prefix|..]), h, p, d)
  {
    if path :| Url(url, prefix, h, p, d, path) {
      UrlAt(url, prefix, h, p, d, path);
    }
    if StartsWith(url, prefix) {
      var rest := url[|prefix|..];
      UrlAt(url, prefix, h, p, d, if Find(rest, '/').Some? then rest[Find(rest, '/').value..] else "");
    }
  }

  // ----- Each parser accepts exactly the grammar -----

  lemma DotHostPortReads(a: string, h: string, p: nat)
    ensures DotHostPort(a) == Some((h, p)) <==> Reads(a, h, p, 853)
  {
    Opening(a);
  }

  /** The DoT parser returns host and port exactly of the `tls://` URLs with a host, path or none. */
  lemma DotGrammar(url: string, h: string, p: nat)
    ensures ParseDotUrl(url) == Some((h, p)) <==> h != "" && exists path :: Url(url, "tls://", h, p, 853, path)
  {
    AnyPath(url, "tls://", h, p, 853);
    if StartsWith(url, "tls://") {
      var a := AuthorityOf(url[6..]);
      DotHostPortReads(a, h, p);
      AuthorityGrammar(a, h, p, 853);
    }
  }

  function PathOr(path: string): string { if path == "" then "/dns-query" else path }

  lemma DohHostPortReads(a: string, h: string, p: nat)
    ensures DohHostPort(a) == Some((h, p)) <==> Reads(a, h, p, 443)
  {
    Opening(a);
  }

  lemma HostPortPathReads(a: string, path: string, h: string, p: nat)
    ensures HostPortPath(a, path).Some? ==> HostPortPath(a, path).value.2 == path
    ensures HostPortPath(a, path) == Some((h, p, path)) <==> h != "" && Reads(a, h, p, 443)
  {
    if IsBracketed(a) && RFind(a, ']').Some? {
      ColonPort(a[RFind(a, ']').value + 1..]);
    }
  }

  lemma ColonPort(t: string)
    ensures StripPrefix(t, ":") == if t != "" && t[0] == ':' then Some(t[1..]) else None
  {
    assert t != "" ==> t[..1] == [t[0]];
  }

  /** A DoH URL of the grammar with path `q`, or the default path if it has none. */
  ghost predicate DohUrl(url: string, h: string, p: nat, q: string) {
    h != "" && exists path :: Url(url, "https://", h, p, 443, path) && q == PathOr(path)
  }

  lemma DohUrlAt(url: string, h: string, p: nat, q: string)
    ensures DohUrl(url, h, p, q) <==>
            && h != "" && StartsWith(url, "https://")
            && var rest := url[8..];
               Reads(AuthorityOf(rest), h, p, 443)
               && q == if Find(rest, '/').Some? then rest[Find(rest, '/').value..] else "/dns-query"
  {
    if DohUrl(url, h, p, q) {
      var path :| Url(url, "https://", h, p, 443, path) && q == PathOr(path);
      UrlAt(url, "https://", h, p, 443, path);
    }
    if StartsWith(url, "https://") {
      var rest := url[8..];
      var path := if Find(rest, '/').Some? then rest[Find(rest, '/').value..] else "";
      UrlAt(url, "https://", h, p, 443, path);
      AuthorityGrammar(AuthorityOf(rest), h, p, 443);
    }
  }

  /** The resolver's DoH parser returns host, port and path exactly of the `https://` URLs with a host. */
  lemma DohGrammar(url: string, h: string, p: nat, q: string)
    ensures ParseDohUrl(url) == Some((h, p, q)) <==> DohUrl(url, h, p, q)
  {
    DohUrlAt(url, h, p, q);
    if StartsWith(url, "https://") {
      DohHostPortReads(AuthorityOf(url[8..]), h, p);
    }
  }

  /** So does the handlers' DoH parser. */
  lemma DohHostPortGrammar(url: string, h: string, p: nat, q: string)
    ensures ParseDohHostPort(url) == Some((h, p, q)) <==> DohUrl(url, h, p, q)
  {
    DohUrlAt(url, h, p, q);
    if StartsWith(url, "https://") {
      var rest := url[8..];
      var path := if Find(rest, '/').Some? then rest[Find(rest, '/').value..] else "/dns-query";
      HostPortPathReads(AuthorityOf(rest), path, h, p);
    }
  }

  lemma V6Reads(a: string, d: nat, h: string, p: nat)
    requires IsBracketed(a)
    ensures V6HostPort(a, d) == Some((h, p)) <==> BracketRead(a, h, p, d)
  {
  }

  lemma NameReads(a: string, d: nat, h: string, p: nat)
    ensures NameHostPort(a, d) == Some((h, p)) <==> NameRead(a, h, p, d)
  {
  }

  lemma GenericReads(url: string, prefix: string, d: nat, h: string, p: nat)
    ensures ParseUrlHostPort(url, prefix, d) == Some((h, p)) <==>
            && StartsWith(url, prefix) && AuthorityOf(url[|prefix|..]) != ""
            && Reads(AuthorityOf(url[|prefix|..]), h, p, d)
  {
    if StartsWith(url, prefix) {
      var a := AuthorityOf(url[|prefix|..]);
      if IsBracketed(a) { V6Reads(a, d, h, p); } else { NameReads(a, d, h, p); }
    }
  }

  /** An authority is empty exactly when it has no host and no port is written. */
  ghost predicate UrlNonEmpty(url: string, prefix: string, h: string, p: nat, d: nat) {
    exists a, path :: a != "" && UrlIs(url, prefix, a, path) && AuthorityIs(a, h, p, d)
  }

  /** The generic parser accepts any URL of the grammar whose authority is not empty, host or no host. */
  lemma GenericGrammar(url: string, prefix: string, d: nat, h: string, p: nat)
    ensures ParseUrlHostPort(url, prefix, d) == Some((h, p)) <==> UrlNonEmpty(url, prefix, h, p, d)
  {
    GenericReads(url, prefix, d, h, p);
    if StartsWith(url, prefix) {
      UrlSplit(url, prefix);
      AuthorityGrammar(AuthorityOf(url[|prefix|..]), h, p, d);
    }
    if UrlNonEmpty(url, prefix, h, p, d) {
      var a, path :| a != "" && UrlIs(url, prefix, a, path) && AuthorityIs(a, h, p, d);
      UrlParts(url, prefix, a, path);
    }
  }

  // ----- Agreement -----

  /** The two DoH parsers succeed on the same strings with equal results. */
  lemma DohParsersAgree(url: string)
    ensures ParseDohUrl(url) == ParseDohHostPort(url)
  {
    if ParseDohUrl(url).Some? {
      var (h, p, q) := ParseDohUrl(url).value;
      DohGrammar(url, h, p, q);
      DohHostPortGrammar(url, h, p, q);
    } else if ParseDohHostPort(url).Some? {
      var (h, p, q) := ParseDohHostPort(url).value;
      DohGrammar(url, h, p, q);
      DohHostPortGrammar(url, h, p, q);
    }
  }

  /** The generic parser is the grammar with empty hosts let through where a port or brackets are written. */
  lemma GenericWithHost(url: string, prefix: string, d: nat, h: string, p: nat)
    requires h != ""
    ensures ParseUrlHostPort(url, prefix, d) == Some((h, p)) <==> exists path :: Url(url, prefix, h, p, d, path)
  {
    GenericReads(url, prefix, d, h, p);
    AnyPath(url, prefix, h, p, d);
    if StartsWith(url, prefix) {
      AuthorityGrammar(AuthorityOf(url[|prefix|..]), h, p, d);
      assert Reads("", h, p, d) ==> h == "";
    }
  }

  /** The DoT parser is the generic parser with empty hosts refused. */
  lemma DotAgreesWithGeneric(url: string)
    ensures ParseDotUrl(url) ==
            match ParseUrlHostPort(url, "tls://", 853)
            case None => None
            case Some((host, port)) => if host == "" then None else Some((host, port))
  {
    if ParseDotUrl(url).Some? {
      var (h, p) := ParseDotUrl(url).value;
      DotGrammar(url, h, p);
      GenericWithHost(url, "tls://", 853, h, p);
    } else if ParseUrlHostPort(url, "tls://", 853).Some? {
      var (h, p) := ParseUrlHostPort(url, "tls://", 853).value;
      if h != "" {
        GenericWithHost(url, "tls://", 853, h, p);
        DotGrammar(url, h, p);
      }
    }
  }

  /** So is the DoH parser, path aside. */
  lemma DohAgreesWithGeneric(url: string)
    ensures match ParseUrlHostPort(url, "https://", 443)
            case None => ParseDohUrl(url) == None
            case Some((host, port)) =>
              if host == "" then ParseDohUrl(url) == None
              else ParseDohUrl(url).Some? && ParseDohUrl(url).value.0 == host && ParseDohUrl(url).value.1 == port
  {
    if ParseDohUrl(url).Some? {
      var (h, p, q) := ParseDohUrl(url).value;
      DohGrammar(url, h, p, q);
      GenericWithHost(url, "https://", 443, h, p);
    } else if ParseUrlHostPort(url, "https://", 443).Some? {
      var (h, p) := ParseUrlHostPort(url, "https://", 443).value;
      if h != "" {
        GenericWithHost(url, "https://", 443, h, p);
        var path :| Url(url, "https://", h, p, 443, path);
        DohGrammar(url, h, p, PathOr(path));
      }
    }
  }

  /** The generic parser does accept an empty host. */
  lemma EmptyHostAccepted()
    ensures ParseUrlHostPort("tls://:1", "tls://", 853) == Some(("", 1)) && ParseDotUrl("tls://:1") == None
  {
    assert NumberOf("1") == 1 by { assert "1"[..0] == ""; }
    assert Digits("1", 1);
    EmptyHost("tls://:1", "tls://", ":1", "1");
    DotAgreesWithGeneric("tls://:1");
  }

  lemma EmptyHost(url: string, prefix: string, a: string, t: string)
    requires url == prefix + a && a == ":" + t && Digits(t, 1)
    ensures ParseUrlHostPort(url, prefix, 853) == Some(("", 1))
  {
    assert PortText(t, 1);
    PortPlain(t, 1);
    assert a == "" + ":" + t && a + "" == a;
    assert UrlIs(url, prefix, a, "") && AuthorityIs(a, "", 1, 853);
    GenericGrammar(url, prefix, 853, "", 1);
  }

  // ----- Parsing what was printed -----

  lemma PortPrinted(port: nat)
    requires port <= 65535
    ensures PortText(Numeral(port), port)
  {
    NumeralDenotes(port);
    assert Digits(Numeral(port), port);
  }

  /** `host:port`, or `[host]:port` for an address literal. */
  predicate Printed(authority: string, host: string, port: nat) {
    && port <= 65535 && host != "" && '/' !in host
    && (|| (host[0] != '[' && authority == host + ":" + Numeral(port))
        || authority == "[" + host + "]:" + Numeral(port))
  }

  lemma PrintedIs(authority: string, host: string, port: nat, d: nat)
    requires Printed(authority, host, port)
    ensures AuthorityIs(authority, host, port, d) && authority != "" && '/' !in authority
  {
    PortPrinted(port);
    PortPlain(Numeral(port), port);
    assert authority == host + ":" + Numeral(port) ==> authority[0] == host[0];
  }

  lemma PrintedUrl(prefix: string, authority: string, host: string, port: nat, d: nat, path: string)
    requires Printed(authority, host, port) && (path == "" || path[0] == '/')
    ensures Url(prefix + (authority + path), prefix, host, port, d, path)
  {
    PrintedIs(authority, host, port, d);
    assert UrlIs(prefix + (authority + path), prefix, authority, path);
  }

  /** Parsing a printed URL gives back its host, port and path, in all four parsers. */
  lemma ParsersInvertPrinting(authority: string, host: string, port: nat, path: string)
    requires Printed(authority, host, port) && (path == "" || path[0] == '/')
    ensures ParseDotUrl("tls://" + (authority + path)) == Some((host, port))
    ensures ParseDohUrl("https://" + (authority + path)) == Some((host, port, PathOr(path)))
    ensures ParseDohHostPort("https://" + (authority + path)) == Some((host, port, PathOr(path)))
    ensures ParseUrlHostPort("tls://" + (authority + path), "tls://", 853) == Some((host, port))
    ensures ParseUrlHostPort("https://" + (authority + path), "https://", 443) == Some((host, port))
  {
    var tls, https := "tls://" + (authority + path), "https://" + (authority + path);
    PrintedUrl("tls://", authority, host, port, 853, path);
    PrintedUrl("https://", authority, host, port, 443, path);
    DotGrammar(tls, host, port);
    DohGrammar(https, host, port, PathOr(path));
    DohHostPortGrammar(https, host, port, PathOr(path));
    GenericWithHost(tls, "tls://", 853, host, port);
    GenericWithHost(https, "https://", 443, host, port);
  }
}
