/** Server addresses: which are valid, and when two name the same server. */
module ServerUrl {
  import opened Common
  import opened FirmwareVersion

  const SCHEME := "https://"
  const HOST_AT := 8
  const URL_MAX := 255

  // ---- what an address says ----

  predicate IsHostChar(c: char) {
    IsDigit(c) || 'a' <= c <= 'z' || 'A' <= c <= 'Z' || c == '.' || c == '-'
  }

  predicate AllHostChars(s: string) {
    forall i | 0 <= i < |s| :: IsHostChar(s[i])
  }

  predicate IsEdge(c: char) {
    c != '.' && c != '-'
  }

  predicate GoodHost(host: string) {
    host != "" && AllHostChars(host) && IsEdge(host[0]) && IsEdge(host[|host| - 1])
  }

  /** Nothing, or a colon and one to five digits that make a port. */
  predicate GoodPort(port: string) {
    port != "" ==> port[0] == ':' && 2 <= |port| <= 6 && AllDigits(port[1..]) && 1 <= Value(port[1..]) <= 65535
  }

  predicate IsPathChar(c: char) {
    32 < c as int < 127 && c != '?' && c != '#' && c != '@' && c != '\\'
  }

  predicate GoodPath(path: string) {
    path != "" && path[0] == '/' && forall i | 0 <= i < |path| :: IsPathChar(path[i])
  }

  ghost predicate SplitsInto(url: string, host: string, port: string, path: string) {
    && |url| <= 255 && url == "https://" + (host + (port + path))
    && GoodHost(host) && GoodPort(port) && GoodPath(path)
  }

  ghost predicate Names(url: string) {
    exists host, port, path :: SplitsInto(url, host, port, path)
  }

  // ---- where its parts end ----

  function HostEnd(u: string, p: nat): (e: nat)
    requires p <= |u|
    ensures p <= e <= |u|
    decreases |u| - p
  {
    if p < |u| && IsHostChar(u[p]) then HostEnd(u, p + 1) else p
  }

  lemma {:induction false} HostEndAt(u: string, p: nat, e: nat)
    requires p <= e <= |u| && (forall i | p <= i < e :: IsHostChar(u[i])) && (e < |u| ==> !IsHostChar(u[e]))
    ensures HostEnd(u, p) == e
    decreases e - p
  {
    if p < e { HostEndAt(u, p + 1, e); }
  }

  lemma {:induction false} HostBetween(u: string, p: nat)
    requires p <= |u|
    ensures forall i | p <= i < HostEnd(u, p) :: IsHostChar(u[i])
    ensures HostEnd(u, p) < |u| ==> !IsHostChar(u[HostEnd(u, p)])
    decreases |u| - p
  {
    if p < |u| && IsHostChar(u[p]) { HostBetween(u, p + 1); }
  }

  /** Where the port that may start at `p` ends. */
  function PortEnd(u: string, p: nat): (e: nat)
    requires p <= |u|
    ensures p <= e <= |u|
  {
    if p < |u| && u[p] == ':' then DigitsEnd(u, p + 1) else p
  }

  predicate Checked(u: string) {
    && HOST_AT <= |u| <= URL_MAX && u[..HOST_AT] == SCHEME
    && var h := HostEnd(u, HOST_AT);
       GoodHost(u[HOST_AT..h]) && GoodPort(u[h..PortEnd(u, h)]) && GoodPath(u[PortEnd(u, h)..])
  }

  lemma {:induction false} Cuts(a: string, b: string, c: string, d: string)
    ensures var s, i, j := a + (b + (c + d)), |a| + |b|, |a| + |b| + |c|;
            s[..|a|] == a && s[|a|..i] == b && s[i..j] == c && s[j..] == d
  {
  }

  lemma {:induction false} PartsEnd(u: string, host: string, port: string, path: string)
    requires SplitsInto(u, host, port, path)
    ensures var h := HOST_AT + |host|;
            && h + |port| < |u| && u[..HOST_AT] == SCHEME && u[HOST_AT..h] == host && u[h..h + |port|] == port
            && u[h + |port|..] == path
            && HostEnd(u, HOST_AT) == h && PortEnd(u, h) == h + |port|
  {
    assert |SCHEME| == HOST_AT;
    Cuts(SCHEME, host, port, path);
    SlicesEnd(u, HOST_AT + |host|, HOST_AT + |host| + |port|);
  }

  lemma {:induction false} SlicesEnd(u: string, h: nat, e: nat)
    requires HOST_AT <= h <= e < |u| && GoodHost(u[HOST_AT..h]) && GoodPort(u[h..e]) && GoodPath(u[e..])
    ensures HostEnd(u, HOST_AT) == h && PortEnd(u, h) == e
  {
    forall i | HOST_AT <= i < h ensures IsHostChar(u[i]) {
      assert u[i] == u[HOST_AT..h][i - HOST_AT];
    }
    assert u[e] == u[e..][0] == '/';
    if h < e {
      assert u[h] == u[h..e][0] == ':';
      assert u[h + 1..e] == u[h..e][1..];
      DigitsEndAt(u, h + 1, e);
    }
    HostEndAt(u, HOST_AT, h);
  }

  lemma {:induction false} CheckedSplits(u: string)
    requires Checked(u)
    ensures Names(u)
  {
    var h := HostEnd(u, HOST_AT);
    var e := PortEnd(u, h);
    Rejoined(u, h, e);
    assert SplitsInto(u, u[HOST_AT..h], u[h..e], u[e..]);
  }

  lemma {:induction false} Rejoined(u: string, h: nat, e: nat)
    requires HOST_AT <= h <= e <= |u|
    ensures u == u[..HOST_AT] + (u[HOST_AT..h] + (u[h..e] + u[e..]))
  {
  }

  /** The greedy reading is exact. */
  lemma {:induction false} CheckedIsExact(u: string)
    ensures Checked(u) <==> Names(u)
  {
    if Checked(u) { CheckedSplits(u); }
    forall host, port, path | SplitsInto(u, host, port, path) ensures Checked(u) {
      PartsEnd(u, host, port, path);
    }
  }

  method IsValidUrl(url: CString) returns (ok: bool)
    ensures ok <==> Names(url)
  {
    CheckedIsExact(url);
    if |url| < HOST_AT || url[..HOST_AT] != SCHEME || |url| > URL_MAX { return false; }
    var found, p := TakeHost(url);
    if !found { return false; }
    var good, e := TakePort(url, p);
    if !good { return false; }
    ok := PathIsGood(url, e);
  }

  method TakeHost(url: CString) returns (ok: bool, p: nat)
    requires HOST_AT <= |url|
    ensures p == HostEnd(url, HOST_AT)
    ensures ok <==> GoodHost(url[HOST_AT..p])
  {
    p := HOST_AT;
    while p < |url| && IsHostChar(url[p])
      invariant HOST_AT <= p <= |url| && HostEnd(url, HOST_AT) == HostEnd(url, p)
    {
      p := p + 1;
    }
    HostIsGood(url);
    ok := p != HOST_AT && IsEdge(url[HOST_AT]) && IsEdge(url[p - 1]);
  }

  lemma {:induction false} HostIsGood(url: string)
    requires HOST_AT <= |url|
    ensures var p := HostEnd(url, HOST_AT);
            (p < |url| ==> !IsHostChar(url[p]))
            && (GoodHost(url[HOST_AT..p]) <==> p != HOST_AT && IsEdge(url[HOST_AT]) && IsEdge(url[p - 1]))
  {
    HostBetween(url, HOST_AT);
    var p := HostEnd(url, HOST_AT);
    var host := url[HOST_AT..p];
    if p != HOST_AT {
      assert host[0] == url[HOST_AT] && host[|host| - 1] == url[p - 1];
      assert AllHostChars(host);
    }
  }

  method TakePort(url: CString, at: nat) returns (ok: bool, p: nat)
    requires at <= |url|
    ensures ok <==> GoodPort(url[at..PortEnd(url, at)])
    ensures ok ==> p == PortEnd(url, at)
  {
    p := at;
    if p == |url| || url[p] != ':' { return true, p; }
    var port, count := 0, 0;
    p := p + 1;
    PortIsGood(url, at);
    while p < |url| && IsDigit(url[p])
      invariant at + 1 <= p <= |url| && DigitsEnd(url, at + 1) == DigitsEnd(url, p)
      invariant count == p - at - 1 <= 5 && AllDigits(url[at + 1..p]) && port == Value(url[at + 1..p])
    {
      count := count + 1;
      if count > 5 { return false, p; }
      OneMoreDigit(url, at + 1, p);
      port := port * 10 + DigitValue(url[p]);
      p := p + 1;
    }
    ok := count > 0 && port > 0 && port <= 65535;
  }

  lemma {:induction false} PortIsGood(url: string, at: nat)
    requires at < |url| && url[at] == ':'
    ensures var e := DigitsEnd(url, at + 1);
            PortEnd(url, at) == e
            && (GoodPort(url[at..e]) <==> 1 <= e - at - 1 <= 5 && 1 <= Value(url[at + 1..e]) <= 65535)
  {
    DigitsBetween(url, at + 1);
    var e := DigitsEnd(url, at + 1);
    assert url[at..e][1..] == url[at + 1..e];
  }

  method PathIsGood(url: CString, at: nat) returns (ok: bool)
    requires at <= |url|
    ensures ok <==> GoodPath(url[at..])
  {
    if at == |url| || url[at] != '/' { return false; }
    var p := at;
    while p < |url|
      invariant at <= p <= |url| && forall i | at <= i < p :: IsPathChar(url[i])
    {
      if !IsPathChar(url[p]) {
        assert url[at..][p - at] == url[p];
        return false;
      }
      p := p + 1;
    }
    return true;
  }

  // ---- which characters ----

  predicate IsLetterOrDigit(c: char) {
    48 <= c as int <= 57 || 65 <= c as int <= 90 || 97 <= c as int <= 122
  }

  lemma {:induction false} HostCharacters(c: char)
    ensures IsHostChar(c) <==> IsLetterOrDigit(c) || c == '.' || c == '-'
    ensures IsHostChar(c) ==> (IsEdge(c) <==> IsLetterOrDigit(c))
  {
  }

  function PortText(port: Option<nat>): string {
    match port case None => "" case Some(n) => ":" + Decimal(n)
  }

  lemma {:induction false} PortTextIsGood(n: nat)
    requires 1 <= n <= 65535
    ensures GoodPort(PortText(Some(n)))
  {
    DecimalIsNumeral(n);
    assert PortText(Some(n))[1..] == Decimal(n);
  }

  /** A host of letters, digits, dots and hyphens that begins and ends with a letter or digit is an address with
      any port number there is or none, and any path of visible characters other than four that would end or
      split it. */
  lemma {:induction false} PlainAddress(host: string, port: Option<nat>, path: string)
    requires host != "" && (forall c | c in host :: IsLetterOrDigit(c) || c == '.' || c == '-')
    requires IsLetterOrDigit(host[0]) && IsLetterOrDigit(host[|host| - 1])
    requires forall c | c in path :: '!' <= c <= '~' && c !in {'?', '#', '@', '\\'}
    requires |host| + |PortText(port)| + |path| <= 246 && (port.Some? ==> 1 <= port.value <= 65535)
    ensures Names("https://" + (host + (PortText(port) + ("/" + path))))
  {
    forall i | 0 <= i < |host| ensures IsHostChar(host[i]) {
      assert host[i] in host;
      HostCharacters(host[i]);
    }
    HostCharacters(host[0]);
    HostCharacters(host[|host| - 1]);
    var whole := "/" + path;
    forall i | 0 <= i < |whole| ensures IsPathChar(whole[i]) {
      if i > 0 { assert whole[i] == path[i - 1] && path[i - 1] in path; }
    }
    if port.Some? { PortTextIsGood(port.value); }
    assert SplitsInto("https://" + (host + (PortText(port) + whole)), host, PortText(port), whole);
  }

  /** And no address has any other characters, or any other port. */
  lemma {:induction false} AddressCharacters(url: string, host: string, port: string, path: string)
    requires SplitsInto(url, host, port, path)
    ensures forall c | c in host :: IsLetterOrDigit(c) || c == '.' || c == '-'
    ensures IsLetterOrDigit(host[0]) && IsLetterOrDigit(host[|host| - 1])
    ensures forall c | c in path :: '!' <= c <= '~' && c !in {'?', '#', '@', '\\'}
    ensures port != "" ==> port[0] == ':' && 2 <= |port| <= 6 && 1 <= Value(port[1..]) <= 65535
    ensures forall c | c in port :: c == ':' || 48 <= c as int <= 57
  {
    forall c | c in host ensures IsLetterOrDigit(c) || c == '.' || c == '-' { HostCharacters(c); }
    HostCharacters(host[0]);
    HostCharacters(host[|host| - 1]);
    forall c | c in port ensures c == ':' || 48 <= c as int <= 57 {
      var i :| 0 <= i < |port| && port[i] == c;
      if i > 0 { assert IsDigit(port[1..][i - 1]); }
    }
  }

  // ---- the same server ----

  /** The two addresses agree in host and port as written. */
  ghost predicate SameServer(a: string, b: string) {
    exists host, port, path, path' :: SplitsInto(a, host, port, path) && SplitsInto(b, host, port, path')
  }

  function SlashAt(u: string, p: nat): (e: nat)
    requires p <= |u|
    ensures p <= e <= |u|
    decreases |u| - p
  {
    if p < |u| && u[p] != '/' then SlashAt(u, p + 1) else p
  }

  lemma {:induction false} SlashIsAt(u: string, p: nat, e: nat)
    requires p <= e < |u| && u[e] == '/' && forall i | p <= i < e :: u[i] != '/'
    ensures SlashAt(u, p) == e
    decreases e - p
  {
    if p < e { SlashIsAt(u, p + 1, e); }
  }

  function Authority(u: string): string
    requires HOST_AT <= |u|
  {
    u[HOST_AT..SlashAt(u, HOST_AT)]
  }

  lemma {:induction false} AuthorityIsHostAndPort(u: string, host: string, port: string, path: string)
    requires SplitsInto(u, host, port, path)
    ensures HOST_AT <= |u| && Authority(u) == host + port
  {
    PartsEnd(u, host, port, path);
    var h := HOST_AT + |host|;
    var e := h + |port|;
    forall i | HOST_AT <= i < e ensures u[i] != '/' {
      if i < h { assert u[i] == host[i - HOST_AT]; }
      else if i > h { assert u[i] == port[i - h] == port[1..][i - h - 1]; }
      else { assert u[i] == port[0]; }
    }
    assert u[e] == path[0];
    SlashIsAt(u, HOST_AT, e);
    assert u[HOST_AT..e] == u[HOST_AT..h] + u[h..e];
  }

  lemma {:induction false} HostAndPortAreUnique(host: string, port: string, host': string, port': string)
    requires GoodHost(host) && GoodPort(port) && GoodHost(host') && GoodPort(port') && host + port == host' + port'
    ensures host == host' && port == port'
  {
    HostEndOfPair(host, port);
    HostEndOfPair(host', port');
    var s := host + port;
    assert host == s[..|host|] && host' == s[..|host'|];
    assert port == s[|host|..] && port' == s[|host'|..];
  }

  lemma {:induction false} HostEndOfPair(host: string, port: string)
    requires GoodHost(host) && GoodPort(port)
    ensures HostEnd(host + port, 0) == |host|
  {
    HostEndAt(host + port, 0, |host|);
  }

  /** Two valid addresses agree up to the first slash exactly if they name the same host and port. */
  lemma {:induction false} AuthorityDecides(a: string, b: string)
    requires Names(a) && Names(b)
    ensures HOST_AT <= |a| && HOST_AT <= |b| && (Authority(a) == Authority(b) <==> SameServer(a, b))
  {
    var host, port, path :| SplitsInto(a, host, port, path);
    var host', port', path' :| SplitsInto(b, host', port', path');
    AuthorityIsHostAndPort(a, host, port, path);
    AuthorityIsHostAndPort(b, host', port', path');
    if Authority(a) == Authority(b) {
      HostAndPortAreUnique(host, port, host', port');
    }
    if SameServer(a, b) {
      var h, p, q, q' :| SplitsInto(a, h, p, q) && SplitsInto(b, h, p, q');
      AuthorityIsHostAndPort(a, h, p, q);
      AuthorityIsHostAndPort(b, h, p, q');
    }
  }

  method SpanToSlash(u: CString, at: nat) returns (n: nat)
    requires at <= |u|
    ensures at + n == SlashAt(u, at)
  {
    n := 0;
    while at + n < |u| && u[at + n] != '/'
      invariant at + n <= |u| && SlashAt(u, at) == SlashAt(u, at + n)
    {
      n := n + 1;
    }
  }

  method SameOrigin(a: CString, b: CString) returns (same: bool)
    ensures same <==> SameServer(a, b)
  {
    var validA := IsValidUrl(a);
    if !validA { return false; }
    var validB := IsValidUrl(b);
    if !validB { return false; }
    AuthorityDecides(a, b);
    var an := SpanToSlash(a, HOST_AT);
    var bn := SpanToSlash(b, HOST_AT);
    return an == bn && a[HOST_AT..HOST_AT + an] == b[HOST_AT..HOST_AT + an];
  }
}
