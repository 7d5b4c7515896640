/**
 * How an `https` URL divides into its authority and the rest, read as section 3.2 of RFC 3986 describes:
 * the authority follows `//` and runs to the first `/`, `?` or `#`; within it an optional userinfo ends
 * at `@` and an optional port starts at `:`. IPv6 literals and percent-encoding are not read.
 */
module Url {
  import opened Wrappers

  const Https := "https://"

  /** The characters that end the authority component. */
  const AuthorityEnd: set<char> := {'/', '?', '#'}

  /** The index of the first character of `s` that is in `stops`, or `|s|` when there is none. */
  function FirstIndex(s: string, stops: set<char>): (i: nat)
    ensures i <= |s|
    ensures forall j :: 0 <= j < i ==> s[j] !in stops
    ensures i < |s| ==> s[i] in stops
  {
    if s == [] || s[0] in stops then 0 else 1 + FirstIndex(s[1..], stops)
  }

  /** A prefix free of `stops` followed by a stop character (or by nothing) is where the search ends. */
  lemma FirstIndexAfter(a: string, b: string, stops: set<char>)
    requires forall j :: 0 <= j < |a| ==> a[j] !in stops
    requires b == [] || b[0] in stops
    ensures FirstIndex(a + b, stops) == |a|
  {
    assert forall j :: 0 <= j < |a| ==> (a + b)[j] == a[j];
    assert b != [] ==> (a + b)[|a|] == b[0];
  }

  /** The authority of an `https` URL and everything after it (path, query and fragment). */
  datatype Parts = Parts(authority: string, tail: string)

  function Parse(url: string): (p: Option<Parts>)
    ensures p.Some? ==> url == Https + p.value.authority + p.value.tail
    ensures p.Some? ==> forall j :: 0 <= j < |p.value.authority| ==> p.value.authority[j] !in AuthorityEnd
    ensures p.Some? ==> p.value.tail == [] || p.value.tail[0] in AuthorityEnd
  {
    if |url| >= |Https| && url[..|Https|] == Https then
      var rest := url[|Https|..];
      var n := FirstIndex(rest, AuthorityEnd);
      assert url == Https + rest[..n] + rest[n..];
      Some(Parts(rest[..n], rest[n..]))
    else
      None
  }

  /** The host named by an authority: without the userinfo before `@` and the port after `:`. */
  function HostOfAuthority(authority: string): string {
    var at := FirstIndex(authority, {'@'});
    var hostPort := if at < |authority| then authority[at + 1..] else authority;
    hostPort[..FirstIndex(hostPort, {':'})]
  }

  function Host(url: string): Option<string> {
    match Parse(url)
    case None => None
    case Some(p) => Some(HostOfAuthority(p.authority))
  }

  function Tail(url: string): Option<string> {
    match Parse(url)
    case None => None
    case Some(p) => Some(p.tail)
  }

  /** A host free of the delimiters `/ ? # @ :` followed by a path is read back as exactly that host and path. */
  lemma PlainUrl(host: string, path: string)
    requires forall j :: 0 <= j < |host| ==> host[j] !in {'/', '?', '#', '@', ':'}
    requires path == [] || path[0] == '/'
    ensures Host(Https + host + path) == Some(host)
    ensures Tail(Https + host + path) == Some(path)
  {
    var url := Https + host + path;
    assert url[..|Https|] == Https;
    assert url[|Https|..] == host + path;
    FirstIndexAfter(host, path, AuthorityEnd);
    assert (host + path)[..|host|] == host;
    FirstIndexAfter(host, [], {'@'});
    FirstIndexAfter(host, [], {':'});
    assert host + [] == host;
  }
}
