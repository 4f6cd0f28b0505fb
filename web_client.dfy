/** The web client's remote API address builder (cmd/webclient/api.go). */
module WebClient {
  import opened Text

  const DefaultPort := ":8080"

  predicate HasScheme(host: string) {
    StartsWith(host, "http://") || StartsWith(host, "https://")
  }

  /** The base URL a configured host stands for: a host that already names a
      scheme is kept, any other gets `http://` and, when it names no port,
      port 8080. */
  function BaseURL(host: string): (base: string)
    ensures HasScheme(host) ==> base == host
    ensures !HasScheme(host) ==> StartsWith(base, "http://")
    ensures !HasScheme(host) ==> base[|"http://"|..] == (if ':' in host then host else host + DefaultPort)
  {
    if HasScheme(host) then host
    else "http://" + (if ':' !in host then host + DefaultPort else host)
  }

  /** The request path with a leading slash. */
  function WithLeadingSlash(path: string): (p: string)
    ensures StartsWith(p, "/") && EndsWith(p, path)
    ensures |p| > 0 && p[0] == '/'
    ensures StartsWith(path, "/") ==> p == path
  {
    if StartsWith(path, "/") then path else "/" + path
  }

  /** `RemoteAPI.getURL`: no host gives the empty string; otherwise the base
      URL followed by the path with a leading slash. */
  function GetURL(host: string, path: string): (url: string)
    ensures url == "" <==> host == ""
    ensures host != "" ==> EndsWith(url, path) && '/' in url
  {
    if host == "" then ""
    else BaseURL(host) + WithLeadingSlash(path)
  }

  /** An empty host gives "" whatever the path. */
  lemma EmptyHostGivesEmpty(path: string)
    ensures GetURL("", path) == ""
  {
  }

  /** A host with a scheme is the URL's base, unchanged. */
  lemma SchemeHostKept(host: string, path: string)
    requires HasScheme(host)
    ensures StartsWith(GetURL(host, path), host)
  {
    var url := GetURL(host, path);
    assert url[..|host|] == host;
  }

  /** Without a scheme the URL starts with `http://`, and `:8080` follows the
      host exactly when the host names no port. */
  lemma DefaultSchemeAndPort(host: string, path: string)
    requires host != "" && !HasScheme(host)
    ensures StartsWith(GetURL(host, path), "http://")
    ensures StartsWith(GetURL(host, path), "http://" + host + DefaultPort) <==> ':' !in host
  {
    if ':' !in host {
      PortAdded(host, path);
    } else {
      PortKept(host, path);
    }
  }

  lemma PortAdded(host: string, path: string)
    requires host != "" && !HasScheme(host) && ':' !in host
    ensures StartsWith(GetURL(host, path), "http://")
    ensures StartsWith(GetURL(host, path), "http://" + host + DefaultPort)
  {
    var p := WithLeadingSlash(path);
    assert GetURL(host, path) == "http://" + (host + DefaultPort) + p;
    StemPrefixes("http://", host + DefaultPort, p);
    assert "http://" + (host + DefaultPort) == "http://" + host + DefaultPort;
  }

  lemma PortKept(host: string, path: string)
    requires host != "" && !HasScheme(host) && ':' in host
    ensures StartsWith(GetURL(host, path), "http://")
    ensures !StartsWith(GetURL(host, path), "http://" + host + DefaultPort)
  {
    var p := WithLeadingSlash(path);
    assert GetURL(host, path) == "http://" + host + p;
    StemPrefixes("http://", host, p);
    MismatchAfterStem("http://" + host, DefaultPort, p);
  }

  /** `a + b + c` starts with `a` and with `a + b`. */
  lemma StemPrefixes(a: string, b: string, c: string)
    ensures StartsWith(a + b + c, a) && StartsWith(a + b + c, a + b)
  {
    assert (a + b + c)[..|a|] == a;
    assert (a + b + c)[..|a + b|] == a + b;
  }

  /** Two strings sharing a stem but differing right after it do not prefix
      one another. */
  lemma MismatchAfterStem(stem: string, a: string, b: string)
    requires |a| > 0 && |b| > 0 && a[0] != b[0]
    ensures !StartsWith(stem + b, stem + a)
  {
    assert (stem + b)[|stem|] == b[0];
    assert (stem + a)[|stem|] == a[0];
    MismatchIsNotPrefix(stem + b, stem + a, |stem|);
  }

  lemma MismatchIsNotPrefix(s: string, prefix: string, i: nat)
    requires i < |s| && i < |prefix| && s[i] != prefix[i]
    ensures !StartsWith(s, prefix)
  {
  }

  /** A path without a leading slash resolves as if it had one. */
  lemma LeadingSlashAdded(host: string, path: string)
    requires !StartsWith(path, "/")
    ensures GetURL(host, path) == GetURL(host, "/" + path)
  {
    assert ("/" + path)[..1] == "/";
  }

  /** For a non-empty host the URL is the base followed by a suffix that
      starts with '/' and ends with the requested path. */
  lemma UrlShape(host: string, path: string)
    requires host != ""
    ensures var url := GetURL(host, path);
      var base := BaseURL(host);
      StartsWith(url, base) && StartsWith(url[|base|..], "/") && EndsWith(url, path)
  {
    var url := GetURL(host, path);
    var base := BaseURL(host);
    var p := WithLeadingSlash(path);
    assert url[..|base|] == base;
    assert url[|base|..] == p;
    assert url[|url| - |path|..] == p[|p| - |path|..];
  }
}
