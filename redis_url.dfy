/**
 * The `redis://` connection URL that `connect_redis` builds from a host, a port and an
 * optional password, and a reader for URLs of that shape (authority up to the first `/`,
 * `?` or `#`; user information up to the last `@`; port after the last `:`), which shows
 * what the URL carries and when the verbatim password insertion breaks it.
 */
module RedisUrl {
  import opened Wrappers
  import Decimal
  import Sequences

  /** Rust's `u16`, the type of the `port` argument. */
  type Port = p: nat | p < 0x1_0000

  const SCHEME := "redis://"

  /** `format!("{}", port)`. */
  function PortText(port: Port): string {
    Decimal.NatToText(port)
  }

  /**
   * The URL handed to `Client::open`: with no password, or an empty one,
   * `redis://host:port/`; otherwise `redis://:password@host:port/`, the password copied
   * as it is.
   */
  function ConnectionUrl(host: string, port: Port, password: Option<string>): string {
    match password
    case Some(pwd) =>
      if pwd == "" then SCHEME + host + ":" + PortText(port) + "/"
      else SCHEME + ":" + pwd + "@" + host + ":" + PortText(port) + "/"
    case None => SCHEME + host + ":" + PortText(port) + "/"
  }

  /** The URL's two shapes, as an equation each. */
  lemma ConnectionUrlShape(host: string, port: Port, password: Option<string>)
    ensures password == None || password == Some("") ==>
      ConnectionUrl(host, port, password) == "redis://" + host + ":" + PortText(port) + "/"
    ensures password.Some? && password.value != "" ==>
      ConnectionUrl(host, port, password) == "redis://:" + password.value + "@" + host + ":" + PortText(port) + "/"
  {
  }

  // ---------------------------------------------------------------------------------------
  // Reading a URL back

  /** What a `redis://` URL of the built shape tells the client. */
  datatype Target = Target(password: Option<string>, host: string, port: nat)

  /** Characters that end the authority part of a URL. */
  predicate EndsAuthority(c: char) {
    c == '/' || c == '?' || c == '#'
  }

  /** Characters no host name contains. */
  predicate HostDelimiter(c: char) {
    EndsAuthority(c) || c == '@' || c == ':'
  }

  predicate PlainHost(host: string) {
    forall i :: 0 <= i < |host| ==> !HostDelimiter(host[i])
  }

  /** No character of `s` ends an authority: what a password must be to survive. */
  predicate InAuthority(s: string) {
    forall i :: 0 <= i < |s| ==> !EndsAuthority(s[i])
  }

  /** Length of the authority at the start of `s`. */
  function AuthorityLength(s: string): (n: nat)
    ensures n <= |s|
    ensures forall i :: 0 <= i < n ==> !EndsAuthority(s[i])
    ensures n < |s| ==> EndsAuthority(s[n])
  {
    if s == [] || EndsAuthority(s[0]) then 0 else 1 + AuthorityLength(s[1..])
  }

  /** The position of the last `c` in `s`. */
  function LastIndexOf(s: string, c: char): (r: Option<nat>)
    ensures r.Some? ==> r.value < |s| && s[r.value] == c
    ensures r.Some? ==> forall j :: r.value < j < |s| ==> s[j] != c
    ensures r.None? ==> forall j :: 0 <= j < |s| ==> s[j] != c
  {
    if s == [] then None
    else if s[|s| - 1] == c then Some(|s| - 1)
    else LastIndexOf(s[..|s| - 1], c)
  }

  /** `host:port`. */
  function ParseHostPort(s: string): Option<(string, nat)> {
    match LastIndexOf(s, ':')
    case None => None
    case Some(i) =>
      match Decimal.ParseNat(s[i + 1..])
      case None => None
      case Some(port) => Some((s[..i], port))
  }

  /** The authority `[:password@]host:port`. */
  function ParseAuthority(authority: string): Option<Target> {
    match LastIndexOf(authority, '@')
    case None =>
      (match ParseHostPort(authority)
       case None => None
       case Some((host, port)) => Some(Target(None, host, port)))
    case Some(at) =>
      var userInfo := authority[..at];
      if userInfo == [] || userInfo[0] != ':' then None
      else
        match ParseHostPort(authority[at + 1..])
        case None => None
        case Some((host, port)) => Some(Target(Some(userInfo[1..]), host, port))
  }

  /** A URL `redis://[:password@]host:port/`, or `None` when it does not have that shape. */
  function ParseUrl(url: string): Option<Target> {
    if |url| < |SCHEME| || url[..|SCHEME|] != SCHEME then None
    else
      var rest := url[|SCHEME|..];
      var n := AuthorityLength(rest);
      if rest[n..] != "/" then None else ParseAuthority(rest[..n])
  }

  /** The password as the URL carries it: an empty one is the same as none. */
  function EffectivePassword(password: Option<string>): Option<string> {
    if password == Some("") then None else password
  }

  /** `c` does not occur in `s`. */
  predicate Lacks(s: string, c: char) {
    forall i :: 0 <= i < |s| ==> s[i] != c
  }

  lemma AuthorityLengthOf(a: string, rest: string)
    requires InAuthority(a)
    requires rest != [] && EndsAuthority(rest[0])
    ensures AuthorityLength(a + rest) == |a|
  {
    var s := a + rest;
    assert forall i :: 0 <= i < |a| ==> s[i] == a[i];
    assert s[|a|] == rest[0];
  }

  lemma LastIndexOfAt(s: string, c: char, k: nat)
    requires k < |s| && s[k] == c
    requires forall j :: k < j < |s| ==> s[j] != c
    ensures LastIndexOf(s, c) == Some(k)
  {
  }

  /** The last `c` of `prefix + [c] + rest` is the one in front of `rest`, when `rest` has none. */
  lemma LastIndexBefore(prefix: string, c: char, rest: string)
    requires Lacks(rest, c)
    ensures LastIndexOf(prefix + [c] + rest, c) == Some(|prefix|)
  {
    var s := prefix + [c] + rest;
    assert s[|prefix|] == c;
    assert forall j :: |prefix| < j < |s| ==> s[j] == rest[j - |prefix| - 1];
    LastIndexOfAt(s, c, |prefix|);
  }

  /** `host:digits` stays inside the authority, has no `@`, and reads back as host and number. */
  lemma HostPortOf(host: string, digits: string)
    requires PlainHost(host) && Decimal.AllDigits(digits) && digits != []
    ensures var hostPort := host + ":" + digits;
      InAuthority(hostPort) && Lacks(hostPort, '@')
      && ParseHostPort(hostPort) == Some((host, Decimal.DigitsValue(digits)))
  {
    var hostPort := host + [':'] + digits;
    assert hostPort == host + ":" + digits;
    assert forall i :: |host| < i < |hostPort| ==> hostPort[i] == digits[i - |host| - 1];
    assert forall i :: 0 <= i < |host| ==> hostPort[i] == host[i];
    LastIndexBefore(host, ':', digits);
    assert hostPort[|host| + 1..] == digits;
    assert hostPort[..|host|] == host;
  }

  lemma ParseUrlOfAuthority(authority: string)
    requires InAuthority(authority)
    ensures ParseUrl(SCHEME + authority + "/") == ParseAuthority(authority)
  {
    var url := SCHEME + authority + "/";
    var rest := url[|SCHEME|..];
    assert rest == authority + "/";
    AuthorityLengthOf(authority, "/");
    assert rest[..|authority|] == authority;
    assert rest[|authority|..] == "/";
  }

  lemma ParseAuthorityWithPassword(pwd: string, hostPort: string)
    requires InAuthority(pwd) && InAuthority(hostPort) && Lacks(hostPort, '@')
    ensures var authority := ":" + pwd + "@" + hostPort;
      InAuthority(authority)
      && ParseAuthority(authority) ==
         match ParseHostPort(hostPort)
         case None => None
         case Some((host, port)) => Some(Target(Some(pwd), host, port))
  {
    var userInfo := [':'] + pwd;
    var authority := userInfo + ['@'] + hostPort;
    assert authority == ":" + pwd + "@" + hostPort;
    var at := |userInfo|;
    assert forall i :: at < i < |authority| ==> authority[i] == hostPort[i - at - 1];
    assert forall i :: 0 < i < at ==> authority[i] == pwd[i - 1];
    LastIndexBefore(userInfo, '@', hostPort);
    assert authority[..at] == userInfo;
    assert authority[at + 1..] == hostPort;
  }

  lemma ParseAuthorityWithoutPassword(hostPort: string)
    requires Lacks(hostPort, '@')
    ensures ParseAuthority(hostPort) ==
      match ParseHostPort(hostPort)
      case None => None
      case Some((host, port)) => Some(Target(None, host, port))
  {
  }

  lemma ConnectionUrlWithPassword(host: string, port: Port, pwd: string)
    requires pwd != ""
    ensures ConnectionUrl(host, port, Some(pwd)) == SCHEME + (":" + pwd + "@" + (host + ":" + PortText(port))) + "/"
  {
    var d := PortText(port);
    var q := SCHEME + ":" + pwd + "@";
    Sequences.AppendAssoc(SCHEME, ":", pwd);
    Sequences.AppendAssoc(SCHEME, ":" + pwd, "@");
    Sequences.AppendAssoc(SCHEME, ":" + pwd + "@", host + ":" + d);
    Sequences.AppendAssoc(q, host + ":", d);
    Sequences.AppendAssoc(q, host, ":");
  }

  lemma ConnectionUrlWithoutPassword(host: string, port: Port, password: Option<string>)
    requires password == None || password == Some("")
    ensures ConnectionUrl(host, port, password) == SCHEME + (host + ":" + PortText(port)) + "/"
  {
    var d := PortText(port);
    Sequences.AppendAssoc(SCHEME, host + ":", d);
    Sequences.AppendAssoc(SCHEME, host, ":");
  }

  /**
   * When the host holds none of `/ ? # @ :` and the password none of `/ ? #`, the URL
   * carries exactly the host, the port and the password (an empty password as none).
   */
  lemma ParseConnectionUrl(host: string, port: Port, password: Option<string>)
    requires PlainHost(host)
    requires password.Some? ==> InAuthority(password.value)
    ensures ParseUrl(ConnectionUrl(host, port, password)) == Some(Target(EffectivePassword(password), host, port))
  {
    var digits := PortText(port);
    var hostPort := host + ":" + digits;
    HostPortOf(host, digits);
    Decimal.DigitsValueOfText(port);
    if password.Some? && password.value != "" {
      var pwd := password.value;
      ParseAuthorityWithPassword(pwd, hostPort);
      ConnectionUrlWithPassword(host, port, pwd);
      ParseUrlOfAuthority(":" + pwd + "@" + hostPort);
    } else {
      ParseAuthorityWithoutPassword(hostPort);
      ConnectionUrlWithoutPassword(host, port, password);
      ParseUrlOfAuthority(hostPort);
    }
  }

  /** The authority of `s` ends at `n` when `n` is the first character that ends one. */
  lemma AuthorityLengthAt(s: string, n: nat)
    requires n < |s| && EndsAuthority(s[n]) && InAuthority(s[..n])
    ensures AuthorityLength(s) == n
  {
  }

  /**
   * The password is not escaped: one holding a `/`, `?` or `#` ends the authority early,
   * so the URL built from it no longer has the `[:password@]host:port/` shape at all.
   */
  lemma DelimiterInPasswordIsLost(host: string, port: Port, pwd: string)
    requires !InAuthority(pwd)
    ensures ParseUrl(ConnectionUrl(host, port, Some(pwd))) == None
  {
    var k := AuthorityLength(pwd);
    var hostPort := host + ":" + PortText(port);
    var authority := ":" + pwd + "@" + hostPort;
    var rest := authority + "/";
    var url := ConnectionUrl(host, port, Some(pwd));
    ConnectionUrlWithPassword(host, port, pwd);
    Sequences.AppendAssoc(SCHEME, authority, "/");
    assert url[|SCHEME|..] == rest;
    assert rest[1 + k] == pwd[k];
    assert rest[..1 + k] == ":" + pwd[..k];
    assert forall i :: 0 <= i < k ==> pwd[..k][i] == pwd[i];
    AuthorityLengthAt(rest, 1 + k);
    assert |rest[1 + k..]| > 1;
  }
}
