/**
 * `normalizePath` and `apiPath` of the front-end API client: every backend
 * path gets exactly one "/api" prefix, and a leading `host:port` is cut off.
 */
module ApiPath {
  import opened Wrappers
  import opened Strings

  const ApiBasePath := "/api"

  /** A character of the host part of `^[a-zA-Z0-9.-]+:\d+\/`. */
  predicate IsHostChar(c: char) {
    ('a' <= c <= 'z') || ('A' <= c <= 'Z') || IsDigit(c) || c == '.' || c == '-'
  }

  /** Length of the longest prefix of `s` made of host characters. */
  function HostLen(s: string): (n: nat)
    ensures n <= |s|
    ensures forall i | 0 <= i < n :: IsHostChar(s[i])
    ensures n < |s| ==> !IsHostChar(s[n])
  {
    if s == [] || !IsHostChar(s[0]) then 0 else 1 + HostLen(s[1..])
  }

  /** Length of the longest prefix of `s` made of decimal digits. */
  function DigitLen(s: string): (n: nat)
    ensures n <= |s|
    ensures forall i | 0 <= i < n :: IsDigit(s[i])
    ensures n < |s| ==> !IsDigit(s[n])
  {
    if s == [] || !IsDigit(s[0]) then 0 else 1 + DigitLen(s[1..])
  }

  /**
   * Where the "/" that ends a leading `host:port/` sits, when `s` has one:
   * the host characters, a ':', the port digits, then '/'.
   */
  function PortSlash(s: string): Option<nat> {
    var h := HostLen(s);
    if 0 < h < |s| && s[h] == ':' then
      var d := DigitLen(s[h + 1..]);
      if 0 < d && h + 1 + d < |s| && s[h + 1 + d] == '/' then Some(h + 1 + d) else None
    else None
  }

  /** The regular expression `^[a-zA-Z0-9.-]+:\d+\/`, stated directly. */
  ghost predicate MatchesHostPort(s: string) {
    exists i, j | 0 < i && i + 1 < j < |s| ::
      && (forall k | 0 <= k < i :: IsHostChar(s[k]))
      && s[i] == ':'
      && (forall k | i < k < j :: IsDigit(s[k]))
      && s[j] == '/'
  }

  /** Index of the first `c` in `s`, or -1 (`String.prototype.indexOf`). */
  function IndexOf(s: string, c: char): (r: int)
    ensures -1 <= r < |s|
    ensures r == -1 <==> c !in s
    ensures r >= 0 ==> s[r] == c && forall k | 0 <= k < r :: s[k] != c
  {
    if s == [] then -1
    else if s[0] == c then 0
    else var r := IndexOf(s[1..], c); if r == -1 then -1 else r + 1
  }

  /**
   * The scan finds a `host:port/` prefix exactly when the regular expression
   * matches, and the "/" it finds is the first "/" of the string.
   */
  lemma PortSlashMatches(s: string)
    ensures PortSlash(s).Some? <==> MatchesHostPort(s)
    ensures PortSlash(s).Some? ==> PortSlash(s).value == IndexOf(s, '/')
  {
    if PortSlash(s).Some? {
      ScanMatches(s);
    }
    if MatchesHostPort(s) {
      var i, j :| 0 < i && i + 1 < j < |s|
        && (forall k | 0 <= k < i :: IsHostChar(s[k])) && s[i] == ':'
        && (forall k | i < k < j :: IsDigit(s[k])) && s[j] == '/';
      MatchScans(s, i, j);
    }
  }

  lemma ScanMatches(s: string)
    requires PortSlash(s).Some?
    ensures MatchesHostPort(s) && PortSlash(s).value == IndexOf(s, '/')
  {
    var h := HostLen(s);
    var j := PortSlash(s).value;
    var t := s[h + 1..];
    forall k | h < k < j ensures IsDigit(s[k]) {
      assert s[k] == t[k - h - 1];
    }
    forall k | 0 <= k < j ensures s[k] != '/' {
      if k < h {
        assert IsHostChar(s[k]);
      } else if k > h {
        assert IsDigit(s[k]);
      }
    }
  }

  lemma MatchScans(s: string, i: nat, j: nat)
    requires 0 < i && i + 1 < j < |s|
    requires forall k | 0 <= k < i :: IsHostChar(s[k])
    requires s[i] == ':' && s[j] == '/'
    requires forall k | i < k < j :: IsDigit(s[k])
    ensures PortSlash(s) == Some(j)
  {
    // ':' is not a host character and '/' is not a digit, so the scans stop exactly at i and j.
    var h := HostLen(s);
    assert h == i;
    var t := s[h + 1..];
    var d := DigitLen(t);
    assert d == j - i - 1;
    assert t[0] == s[i + 1];
  }

  /**
   * `normalizePath`: cut a leading `host:port` back to the "/" after it;
   * hand an http(s) URL to the URL parser, which yields its pathname, search
   * and hash or throws (`None`); leave every other path alone.
   */
  function NormalizePath(path: string, parseUrl: string -> Option<string>): Option<string> {
    if PortSlash(path).Some? then
      var i := IndexOf(path, '/');
      if i >= 0 then Some(path[i..]) else None
    else if StartsWith(path, "http://") || StartsWith(path, "https://") then parseUrl(path)
    else Some(path)
  }

  /** `apiPath`: the normalized path with exactly one "/api" in front. */
  function ApiPath(path: string, parseUrl: string -> Option<string>): Option<string> {
    match NormalizePath(path, parseUrl)
    case None => None
    case Some(p) =>
      if !StartsWith(p, "/") then Some(ApiBasePath + "/" + p)
      else if StartsWith(p, ApiBasePath) then Some(p)
      else Some(ApiBasePath + p)
  }

  /** A path with a `host:port/` prefix loses exactly that prefix. */
  lemma StripsHostPort(path: string, parseUrl: string -> Option<string>)
    requires MatchesHostPort(path)
    ensures var j := PortSlash(path).value;
      NormalizePath(path, parseUrl) == Some(path[j..]) && StartsWith(path[j..], "/")
  {
    PortSlashMatches(path);
  }

  /** A path that begins with "/" has no `host:port/` prefix and is not a URL. */
  lemma SlashPathUnchanged(p: string, parseUrl: string -> Option<string>)
    requires StartsWith(p, "/")
    ensures NormalizePath(p, parseUrl) == Some(p)
  {
    assert p[0] == '/';
    assert !IsHostChar(p[0]);
    assert HostLen(p) == 0;
  }

  /**
   * Whatever `apiPath` returns begins with "/api"; a normalized path that
   * already begins with "/api" (even "/apiary") comes back unchanged; one
   * without a leading "/" gets "/api/" in front; any other gets "/api".
   */
  lemma ApiPathPrefix(path: string, parseUrl: string -> Option<string>)
    requires ApiPath(path, parseUrl).Some?
    ensures StartsWith(ApiPath(path, parseUrl).value, ApiBasePath)
    ensures var n := NormalizePath(path, parseUrl).value;
      && (StartsWith(n, ApiBasePath) ==> ApiPath(path, parseUrl).value == n)
      && (!StartsWith(n, "/") ==> ApiPath(path, parseUrl).value == "/api/" + n)
      && (StartsWith(n, "/") && !StartsWith(n, ApiBasePath) ==> ApiPath(path, parseUrl).value == "/api" + n)
  {
    var n := NormalizePath(path, parseUrl).value;
    if StartsWith(n, ApiBasePath) {
      assert n[..1] == n[..4][..1];
    }
  }

  /** `apiPath` is idempotent: applying it to its own result changes nothing. */
  lemma ApiPathIdempotent(path: string, parseUrl: string -> Option<string>, parseUrl': string -> Option<string>)
    requires ApiPath(path, parseUrl).Some?
    ensures ApiPath(ApiPath(path, parseUrl).value, parseUrl') == ApiPath(path, parseUrl)
  {
    var r := ApiPath(path, parseUrl).value;
    ApiPathPrefix(path, parseUrl);
    assert r[..1] == r[..4][..1];
    SlashPathUnchanged(r, parseUrl');
  }
}
