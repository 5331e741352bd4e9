/**
 Gateway routes: the table of upstream URLs, the names allocated in it, and the local URL a
 client is pointed at.
 */
module Routes {
  import opened Common
  import opened Sequences

  /** Route name to the upstream endpoint it stands for. */
  type Table = map<string, string>

  predicate Extends(small: Table, big: Table) {
    forall r :: r in small ==> r in big && big[r] == small[r]
  }

  // ---------------------------------------------------------------- decimal numbers

  function Digit(d: nat): char
    requires d < 10
  {
    ('0' as int + d) as char
  }

  function Decimal(n: nat): (s: string)
    ensures s != "" && forall i :: 0 <= i < |s| ==> '0' <= s[i] <= '9'
  {
    if n < 10 then [Digit(n)] else Decimal(n / 10) + [Digit(n % 10)]
  }

  lemma {:induction false} DecimalInjective(m: nat, n: nat)
    requires Decimal(m) == Decimal(n)
    ensures m == n
  {
    var a, b := Decimal(m), Decimal(n);
    assert a[|a| - 1] == Digit(m % 10) && b[|b| - 1] == Digit(n % 10);
    if m >= 10 && n >= 10 {
      assert a[..|a| - 1] == Decimal(m / 10) && b[..|b| - 1] == Decimal(n / 10);
      DecimalInjective(m / 10, n / 10);
    }
  }

  predicate AllDigits(s: string) {
    s != "" && forall i :: 0 <= i < |s| ==> '0' <= s[i] <= '9'
  }

  /** The number a string of digits stands for: ten times what has been read, plus the next digit. */
  function ReadFrom(n: nat, s: string): nat
    requires forall i :: 0 <= i < |s| ==> '0' <= s[i] <= '9'
    decreases |s|
  {
    if s == "" then n else ReadFrom(10 * n + (s[0] as int - 48), s[1..])
  }

  lemma {:induction false} ReadSnoc(n: nat, s: string, d: nat)
    requires d < 10 && forall i :: 0 <= i < |s| ==> '0' <= s[i] <= '9'
    ensures ReadFrom(n, s + [Digit(d)]) == 10 * ReadFrom(n, s) + d
    decreases |s|
  {
    if s == "" {
      EmptyAppend([Digit(d)]);
      assert [Digit(d)][1..] == "";
    } else {
      FirstOfAppend(s, [Digit(d)]);
      ReadSnoc(10 * n + (s[0] as int - 48), s[1..], d);
    }
  }

  /** Reading gives back the number that was printed, which has no leading zero. */
  lemma {:induction false} DecimalReads(n: nat)
    ensures AllDigits(Decimal(n)) && ReadFrom(0, Decimal(n)) == n
    ensures |Decimal(n)| > 1 ==> Decimal(n)[0] != '0'
  {
    if n < 10 {
      assert [Digit(n)][1..] == "";
      assert ReadFrom(n, "") == n;
    } else {
      DecimalReads(n / 10);
      ReadSnoc(0, Decimal(n / 10), n % 10);
    }
  }

  // ---------------------------------------------------------------- reading a URL

  /** `strip_prefix`. */
  function StripPrefix(s: string, prefix: string): Option<string> {
    if prefix <= s then Some(s[|prefix|..]) else None
  }

  const SCHEME := "http://"
  const LOOPBACK := "127.0.0.1"

  predicate IsLoopback(authority: string) {
    var host := authority[..IndexOf(authority, ':')];
    host == LOOPBACK || host == "localhost"
  }

  function GatewayRoute(url: string): Option<string> {
    var rest := StripPrefix(url, SCHEME);
    if rest.None? then None
    else
      var slash := IndexOf(rest.value, '/');
      if slash == |rest.value| || !IsLoopback(rest.value[..slash]) then None
      else StripPrefix(rest.value[slash + 1..], "u/")
  }

  function Url(authority: string, route: string): string {
    SCHEME + (authority + ("/u/" + route))
  }

  /** The URL attach writes. */
  function GatewayUrl(port: nat, route: string): string {
    Url(LOOPBACK + ":" + Decimal(port), route)
  }

  lemma IndexOfFirst(a: string, c: char, b: string)
    requires c !in a
    ensures IndexOf(a + [c] + b, c) == |a|
    ensures (a + [c] + b)[..|a|] == a && (a + [c] + b)[|a| + 1..] == b
  {
    var s := a + [c] + b;
    assert s[|a|] == c;
    assert forall i :: 0 <= i < |a| ==> s[i] == a[i];
  }

  lemma StripPrefixExactly(s: string, prefix: string, rest: string)
    ensures StripPrefix(s, prefix) == Some(rest) <==> s == prefix + rest
  {
    if s == prefix + rest {
      assert s[|prefix|..] == rest;
    }
    if prefix <= s && s[|prefix|..] == rest {
      assert s == prefix + rest;
    }
  }

  lemma UrlRoute(authority: string, route: string)
    requires '/' !in authority && IsLoopback(authority)
    ensures GatewayRoute(Url(authority, route)) == Some(route)
  {
    var rest := authority + ("/u/" + route);
    StripPrefixExactly(Url(authority, route), SCHEME, rest);
    SlashFirst(route);
    AppendAssociates(authority, ['/'], "u/" + route);
    IndexOfFirst(authority, '/', "u/" + route);
    StripPrefixExactly("u/" + route, "u/", route);
  }

  lemma SplitAt(s: string, k: nat)
    requires k < |s|
    ensures s == s[..k] + ([s[k]] + s[k + 1..])
  {
  }

  lemma SlashFirst(route: string)
    ensures ['/'] + ("u/" + route) == "/u/" + route
  {
    AppendAssociates(['/'], "u/", route);
    assert ['/'] + "u/" == "/u/";
  }

  lemma RoutedUrl(url: string, route: string) returns (authority: string)
    requires GatewayRoute(url) == Some(route)
    ensures '/' !in authority && IsLoopback(authority) && url == Url(authority, route)
  {
    var rest := StripPrefix(url, SCHEME).value;
    var slash := IndexOf(rest, '/');
    authority := rest[..slash];
    var path := rest[slash + 1..];
    StripPrefixExactly(url, SCHEME, rest);
    StripPrefixExactly(path, "u/", route);
    SplitAt(rest, slash);
    SlashFirst(route);
  }

  /** The URLs read as ours are the loopback ones with a `/u/` path, whatever the port. */
  lemma GatewayRouteExactly(url: string, route: string)
    ensures GatewayRoute(url) == Some(route)
            <==> exists authority :: '/' !in authority && IsLoopback(authority) && url == Url(authority, route)
  {
    if GatewayRoute(url) == Some(route) {
      var authority := RoutedUrl(url, route);
    }
    if authority :| '/' !in authority && IsLoopback(authority) && url == Url(authority, route) {
      UrlRoute(authority, route);
    }
  }

  /** The printed URL gives back the route, for every port and every route. */
  lemma GatewayUrlRoundTrip(port: nat, route: string)
    ensures GatewayRoute(GatewayUrl(port, route)) == Some(route)
  {
    var authority := LOOPBACK + ":" + Decimal(port);
    assert authority == LOOPBACK + [':'] + Decimal(port);
    IndexOfFirst(LOOPBACK, ':', Decimal(port));
    assert '/' !in authority;
    UrlRoute(authority, route);
  }

  /** A host of this machine, and a port or nothing. */
  predicate Local(host: string, port: string) {
    host in {"127.0.0.1", "localhost"} && '/' !in port && (port == "" || port[0] == ':')
  }

  lemma LocalIsLoopback(host: string, port: string)
    requires Local(host, port)
    ensures IsLoopback(host + port) && '/' !in host + port
  {
    var s := host + port;
    assert ':' !in host && '/' !in host;
    assert forall i :: 0 <= i < |host| ==> s[i] == host[i];
    assert port != "" ==> s[|host|] == ':';
    assert IndexOf(s, ':') == |host|;
    assert s[..|host|] == host;
  }

  lemma LoopbackIsLocal(authority: string) returns (host: string, port: string)
    requires IsLoopback(authority) && '/' !in authority
    ensures Local(host, port) && authority == host + port
  {
    var k := IndexOf(authority, ':');
    host, port := authority[..k], authority[k..];
  }

  lemma UrlLiterally(host: string, port: string, route: string)
    ensures Url(host + port, route) == "http://" + host + port + "/u/" + route
  {
    AppendAssociates("http://", host, port);
    AppendAssociates("http://" + host + port, "/u/", route);
    AppendAssociates("http://", host + port, "/u/" + route);
  }

  /** The URLs read as ours, letter by letter: http to this machine, on any port or none, under /u/. */
  lemma GatewayRouteLiterally(url: string, route: string)
    ensures GatewayRoute(url) == Some(route)
            <==> exists host, port :: Local(host, port) && url == "http://" + host + port + "/u/" + route
  {
    if GatewayRoute(url) == Some(route) {
      var authority := RoutedUrl(url, route);
      var host, port := LoopbackIsLocal(authority);
      UrlLiterally(host, port, route);
    }
    if host, port :| Local(host, port) && url == "http://" + host + port + "/u/" + route {
      LocalIsLoopback(host, port);
      UrlLiterally(host, port, route);
      UrlRoute(host + port, route);
    }
  }

  /** What attach points a client at, letter by letter: this machine, the port in decimal, the route. */
  lemma GatewayUrlLiterally(port: nat, route: string) returns (digits: string)
    ensures GatewayUrl(port, route) == "http://127.0.0.1:" + digits + "/u/" + route
    ensures AllDigits(digits) && ReadFrom(0, digits) == port && (|digits| > 1 ==> digits[0] != '0')
  {
    digits := Decimal(port);
    DecimalReads(port);
    assert "http://127.0.0.1:" == SCHEME + (LOOPBACK + ":");
    assert GatewayUrl(port, route) == "http://127.0.0.1:" + digits + "/u/" + route;
  }

  // ---------------------------------------------------------------- allocating a route

  predicate RouteChar(c: char) {
    'a' <= c <= 'z' || 'A' <= c <= 'Z' || '0' <= c <= '9' || c in {'.', '_', '-'}
  }

  function SanitizeRoute(name: string): string {
    seq(|name|, i requires 0 <= i < |name| => if RouteChar(name[i]) then name[i] else '-')
  }

  predicate FreeOrSame(table: Table, url: string, route: string) {
    route in table ==> table[route] == url
  }

  /** The names tried for one base: the base, then `base~2`, `base~3` and so on. */
  function Candidate(base: string, n: nat): string {
    if n <= 1 then base else base + "~" + Decimal(n)
  }

  /** The first free candidate from the n-th on, giving up one past the size of the table. */
  function FirstFree(table: Table, url: string, base: string, n: nat): (k: nat)
    ensures n <= k
    ensures forall i :: n <= i < k ==> !FreeOrSame(table, url, Candidate(base, i))
    ensures FreeOrSame(table, url, Candidate(base, k)) || k > |table|
    decreases |table| + 1 - n
  {
    if n > |table| || FreeOrSame(table, url, Candidate(base, n)) then n else FirstFree(table, url, base, n + 1)
  }

  function Route(table: Table, name: string, url: string): string {
    var base := SanitizeRoute(name);
    Candidate(base, FirstFree(table, url, base, 1))
  }

  lemma CandidatesDiffer(base: string, m: nat, n: nat)
    requires 1 <= m < n
    ensures Candidate(base, m) != Candidate(base, n)
  {
    if m > 1 && Candidate(base, m) == Candidate(base, n) {
      assert Candidate(base, m)[|base| + 1..] == Decimal(m);
      assert Candidate(base, n)[|base| + 1..] == Decimal(n);
      DecimalInjective(m, n);
    }
  }

  /** The candidates 1 to n - 1. */
  function Tried(base: string, n: nat): set<string>
    requires 1 <= n
  {
    if n == 1 then {} else Tried(base, n - 1) + {Candidate(base, n - 1)}
  }

  lemma {:induction false} TriedMembers(base: string, n: nat, c: string)
    requires 1 <= n && c in Tried(base, n)
    ensures exists i :: 1 <= i < n && c == Candidate(base, i)
  {
    if n > 1 && c != Candidate(base, n - 1) {
      TriedMembers(base, n - 1, c);
    }
  }

  lemma {:induction false} TriedCount(base: string, n: nat)
    requires 1 <= n
    ensures |Tried(base, n)| == n - 1
  {
    if n > 1 {
      var c := Candidate(base, n - 1);
      TriedCount(base, n - 1);
      if c in Tried(base, n - 1) {
        TriedMembers(base, n - 1, c);
        var i :| 1 <= i < n - 1 && c == Candidate(base, i);
        CandidatesDiffer(base, i, n - 1);
      }
    }
  }

  /** Taken candidates are different keys of the table, so there are at most as many. */
  lemma TakenAreFew(table: Table, url: string, base: string, n: nat)
    requires 1 <= n && forall i :: 1 <= i < n ==> !FreeOrSame(table, url, Candidate(base, i))
    ensures n - 1 <= |table|
  {
    TriedCount(base, n);
    forall c | c in Tried(base, n) ensures c in table.Keys {
      TriedMembers(base, n, c);
    }
    SubsetSize(Tried(base, n), table.Keys);
  }

  /**
   The probe ends within one more try than the table has entries, on the first candidate that
   is free or holds this very URL, and recording it leaves every existing route as it was.
   */
  lemma RouteIsSafe(table: Table, name: string, url: string)
    ensures var k := FirstFree(table, url, SanitizeRoute(name), 1);
            1 <= k <= |table| + 1
    ensures FreeOrSame(table, url, Route(table, name, url))
    ensures Extends(table, table[Route(table, name, url) := url])
    ensures forall c :: c in Route(table, name, url) ==> RouteChar(c) || c == '~'
  {
    var base := SanitizeRoute(name);
    var k := FirstFree(table, url, base, 1);
    TakenAreFew(table, url, base, k);
    if !FreeOrSame(table, url, Candidate(base, k)) {
      TakenAreFew(table, url, base, k + 1);
    }
    assert forall c :: c in base ==> RouteChar(c);
    assert forall c :: c in Decimal(k) ==> RouteChar(c);
  }

  /** A name with a hyphen for each character that is not safe in a path. */
  predicate PathSafe(name: string, base: string) {
    |base| == |name| && forall i :: 0 <= i < |name| ==>
      base[i] == if 'a' <= name[i] <= 'z' || 'A' <= name[i] <= 'Z' || '0' <= name[i] <= '9' || name[i] in "._-"
                 then name[i] else '-'
  }

  /** Which route a server's URL gets: its path-safe name unless another URL has that, and then that name and `~2`. */
  lemma RouteNames(table: Table, name: string, url: string, base: string)
    requires PathSafe(name, base)
    ensures base !in table || table[base] == url ==> Route(table, name, url) == base
    ensures base in table && table[base] != url && (base + "~2" !in table || table[base + "~2"] == url) ==>
              Route(table, name, url) == base + "~2"
  {
    assert SanitizeRoute(name) == base;
    assert Decimal(2) == "2";
    assert Candidate(base, 1) == base && Candidate(base, 2) == base + "~2";
    if base in table {
      assert table.Keys - {base} < table.Keys;
      assert |table.Keys| == |table| && |table| >= 1;
    }
  }

  class Gateway {
    var servers: Table

    constructor ()
      ensures servers == map[]
    {
      servers := map[];
    }

    method AllocateRoute(name: string, url: string) returns (route: string)
      ensures route == Route(servers, name, url)
    {
      var base := SanitizeRoute(name);
      RouteIsSafe(servers, name, url);
      assert Candidate(base, 1) == base;
      if FreeOrSame(servers, url, base) {
        return base;
      }
      var n := 2;
      route := base + "~" + Decimal(n);
      while !FreeOrSame(servers, url, route)
        invariant 2 <= n <= FirstFree(servers, url, base, 1)
        invariant route == Candidate(base, n)
        invariant forall i :: 1 <= i < n ==> !FreeOrSame(servers, url, Candidate(base, i))
        decreases |servers| + 1 - n
      {
        n := n + 1;
        route := base + "~" + Decimal(n);
      }
    }
  }
}
