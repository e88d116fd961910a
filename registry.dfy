/**
 * The Registry autoupdate strategy (tools/internal/autoupdate/registry.go): it lists the
 * tags of the first configured image in its registry, keeps those matching a version
 * filter, optionally only the newest, and offers every configured image with those tags.
 *
 * HTTP is a parameter at two levels: `send(n)` is what the n-th attempt of one request gets
 * back (the retry loop), and `respond(nextUrl, page)` is the decoded page a listing request
 * yields (the page walk of `getImageTags`). Regular expressions and semantic versions are
 * parameters too: `matches` is the compiled `VersionFilter`, `parse` is
 * `semver.NewVersion`, `le` its ordering and `show` its `String()`.
 */
module Registry {
  import opened Wrappers
  import opened Text
  import opened Artifacts
  import opened Strategies

  datatype RegistryStrategy = RegistryStrategy(images: seq<ImageRef>, latest: bool, versionFilter: string)

  // ---------------------------------------------------------------------------
  // Where an image lives

  datatype RegistryInfo = RegistryInfo(registry: string, namespace: string, repository: string)

  /**
   * `getRegistryInformationFromImage`: Docker Hub for "org/name", a registry without a
   * namespace for "host.tld/name", a long repository path under a registry host, and
   * otherwise the first three segments. A reference without "/" makes the Go code index
   * out of range.
   */
  function RegistryInformation(image: string): RegistryInfo
    requires '/' in image
  {
    var parts := Split(image, '/');
    SplitSeveral(image, '/');
    if |parts| == 2 && '.' !in parts[0] then RegistryInfo("dockerhub", parts[0], parts[1])
    else if |parts| == 2 then RegistryInfo(parts[0], "", parts[1])
    else if |parts| > 3 && '.' in parts[0] then RegistryInfo(parts[0], parts[1], Join(parts[2..], '/'))
    else RegistryInfo(parts[0], parts[1], parts[2])
  }

  /** How "a/b/c" splits, for segments without "/". */
  lemma SplitThree(a: string, b: string, c: string)
    requires '/' !in a && '/' !in b && '/' !in c
    ensures Split(a + "/" + b + "/" + c, '/') == [a, b, c]
  {
    SplitNoSep(a, '/');
    SplitNoSep(b, '/');
    SplitNoSep(c, '/');
    SplitAround(b, c, '/');
    assert a + "/" + b + "/" + c == a + ['/'] + (b + ['/'] + c);
    SplitAround(a, b + ['/'] + c, '/');
  }

  /** "org/name" without a dot in the organisation is a Docker Hub image. */
  lemma RegistryInformationDockerHub(org: string, name: string)
    requires '/' !in org && '/' !in name && '.' !in org
    ensures RegistryInformation(org + "/" + name) == RegistryInfo("dockerhub", org, name)
  {
    SplitNoSep(org, '/');
    SplitNoSep(name, '/');
    SplitAround(org, name, '/');
  }

  /** "host.tld/name" is an image of that registry with no namespace. */
  lemma RegistryInformationNoNamespace(host: string, name: string)
    requires '/' !in host && '/' !in name && '.' in host
    ensures RegistryInformation(host + "/" + name) == RegistryInfo(host, "", name)
  {
    SplitNoSep(host, '/');
    SplitNoSep(name, '/');
    SplitAround(host, name, '/');
  }

  /** "host/namespace/name" splits into its three segments. */
  lemma RegistryInformationThree(host: string, namespace: string, name: string)
    requires '/' !in host && '/' !in namespace && '/' !in name
    ensures RegistryInformation(host + "/" + namespace + "/" + name) == RegistryInfo(host, namespace, name)
  {
    SplitThree(host, namespace, name);
  }

  /**
   * Under a registry host (a first segment with a dot), everything after the namespace is
   * the repository, "/" included.
   */
  lemma RegistryInformationLongPath(host: string, namespace: string, path: string)
    requires '/' !in host && '/' !in namespace && '.' in host && '/' in path
    ensures RegistryInformation(host + "/" + namespace + "/" + path) == RegistryInfo(host, namespace, path)
  {
    var tail := Split(path, '/');
    SplitSeveral(path, '/');
    SplitNoSep(host, '/');
    SplitNoSep(namespace, '/');
    SplitAround(namespace, path, '/');
    assert host + "/" + namespace + "/" + path == host + ['/'] + (namespace + ['/'] + path);
    SplitAround(host, namespace + ['/'] + path, '/');
    var parts := [host] + ([namespace] + tail);
    assert Split(host + "/" + namespace + "/" + path, '/') == parts;
    assert parts[2..] == tail;
    JoinSplit(path, '/');
  }

  /**
   * Without a dot in the first segment, a reference of four or more segments keeps only
   * its first three: the rest of the path is silently dropped.
   */
  lemma RegistryInformationDropsTail(a: string, b: string, c: string, rest: string)
    requires '/' !in a && '/' !in b && '/' !in c && '.' !in a
    ensures RegistryInformation(a + "/" + b + "/" + c + "/" + rest) == RegistryInfo(a, b, c)
  {
    SplitThree(a, b, c);
    var abc := a + "/" + b + "/" + c;
    assert a + "/" + b + "/" + c + "/" + rest == abc + ['/'] + rest;
    SplitAround(abc, rest, '/');
  }

  // ---------------------------------------------------------------------------
  // Pagination links

  const NextRel := ">; rel=\"next\""

  /** `parseLinkHeader`: the URL of a `<url>; rel="next"` Link header (section 3 of RFC 8288). */
  function ParseLinkHeader(linkHeader: string): string
  {
    if linkHeader == "" then "" else TrimSuffix(TrimPrefix(linkHeader, "<"), NextRel)
  }

  /** The empty header has no next page, and the next link of any URL is read back exactly. */
  lemma LinkHeaderRoundTrip(url: string)
    ensures ParseLinkHeader("") == ""
    ensures ParseLinkHeader("<" + url + NextRel) == url
  {
    assert "<" + url + NextRel == "<" + (url + NextRel);
    TrimPrefixOfPrefixed("<", url + NextRel);
    TrimSuffixOfSuffixed(url, NextRel);
  }

  // ---------------------------------------------------------------------------
  // Retries

  const MaxRetries := 10

  /** What one attempt of a request gets back: its status, and its body unless reading it fails. */
  datatype Response = Response(statusCode: int, status: string, body: Option<string>, closeError: Option<string>)

  predicate Success(code: int) { 200 <= code < 300 }

  /** 500, 502, 503 and 504 are retried; any other failure status is final. */
  predicate Retryable(code: int) { code == 500 || code == 502 || code == 503 || code == 504 }

  /** The error for a final failure status, with the body when it could be read. */
  function StatusError(url: string, resp: Response): string
  {
    match resp.body
    case None => "request to " + url + " failed with status " + resp.status
    case Some(b) => "request to " + url + " failed with status " + resp.status + " and body " + b
  }

  /** Seconds to wait after the n-th attempt. */
  function Backoff(n: nat): (s: nat)
    ensures s >= 1
  {
    if n == 0 then 1 else 2 * Backoff(n - 1)
  }

  /** The outcome of a request, how many attempts it made and the waits between them. */
  datatype RetryRun = RetryRun(result: Result<Response>, attempts: nat, sleeps: seq<nat>)

  /** `doRequestWithRetries` from attempt number `tries` (counting from 0) on. */
  function Retry(url: string, send: nat -> Result<Response>, tries: nat): RetryRun
    requires tries < MaxRetries
    decreases MaxRetries - tries
  {
    match send(tries)
    case Err(e) => RetryRun(Err("request failed: " + e), 1, [])
    case Ok(resp) =>
      if Success(resp.statusCode) then RetryRun(Ok(resp), 1, [])
      else if !Retryable(resp.statusCode) then RetryRun(Err(StatusError(url, resp)), 1, [])
      else if resp.closeError.Some? then RetryRun(Err(resp.closeError.value), 1, [])
      else if tries + 1 == MaxRetries then RetryRun(Err("request failed after 10 retries"), 1, [])
      else
        var rest := Retry(url, send, tries + 1);
        RetryRun(rest.result, rest.attempts + 1, [Backoff(tries + 1)] + rest.sleeps)
  }

  /** A request from attempt `tries` on makes at least one and at most the remaining attempts, with a wait between each two. */
  lemma {:induction false} RetryAttempts(url: string, send: nat -> Result<Response>, tries: nat)
    requires tries < MaxRetries
    ensures var run := Retry(url, send, tries);
      1 <= run.attempts <= MaxRetries - tries && |run.sleeps| == run.attempts - 1
    decreases MaxRetries - tries
  {
    var r := send(tries);
    if r.Ok? && !Success(r.value.statusCode) && Retryable(r.value.statusCode)
       && r.value.closeError.None? && tries + 1 < MaxRetries {
      RetryAttempts(url, send, tries + 1);
    }
  }

  /** The `n` waits after attempts `from`, `from + 1`, and so on. */
  function Backoffs(from: nat, n: nat): seq<nat>
    decreases n
  {
    if n == 0 then [] else [Backoff(from)] + Backoffs(from + 1, n - 1)
  }

  /** The `i`-th of those waits is the one after attempt `from + i`. */
  lemma {:induction false} BackoffsAt(from: nat, n: nat)
    ensures |Backoffs(from, n)| == n
    ensures forall i :: 0 <= i < n ==> Backoffs(from, n)[i] == Backoff(from + i)
    decreases n
  {
    if n > 0 {
      BackoffsAt(from + 1, n - 1);
      forall i | 1 <= i < n ensures Backoffs(from, n)[i] == Backoff(from + i) {
        assert Backoffs(from, n)[i] == Backoffs(from + 1, n - 1)[i - 1];
        assert from + 1 + (i - 1) == from + i;
      }
    }
  }

  /** The waits of a request from attempt `tries` on double from the wait after attempt `tries + 1`. */
  lemma {:induction false} RetrySleeps(url: string, send: nat -> Result<Response>, tries: nat)
    requires tries < MaxRetries
    ensures var run := Retry(url, send, tries);
      run.sleeps == Backoffs(tries + 1, |run.sleeps|)
    decreases MaxRetries - tries
  {
    var r := send(tries);
    if r.Ok? && !Success(r.value.statusCode) && Retryable(r.value.statusCode)
       && r.value.closeError.None? && tries + 1 < MaxRetries {
      var rest := Retry(url, send, tries + 1);
      RetrySleeps(url, send, tries + 1);
      assert Retry(url, send, tries).sleeps == [Backoff(tries + 1)] + rest.sleeps;
      assert Backoffs(tries + 1, 1 + |rest.sleeps|) == [Backoff(tries + 1)] + Backoffs(tries + 2, |rest.sleeps|);
    } else {
      assert Retry(url, send, tries).sleeps == [];
    }
  }

  /** A request that succeeds is the 2xx reply of its last attempt. */
  lemma {:induction false} RetrySucceedsLast(url: string, send: nat -> Result<Response>, tries: nat)
    requires tries < MaxRetries
    ensures var run := Retry(url, send, tries);
      run.result.Ok? ==> Ok(run.result.value) == send(tries + run.attempts - 1) && Success(run.result.value.statusCode)
    decreases MaxRetries - tries
  {
    var r := send(tries);
    if r.Ok? && !Success(r.value.statusCode) && Retryable(r.value.statusCode)
       && r.value.closeError.None? && tries + 1 < MaxRetries {
      var rest := Retry(url, send, tries + 1);
      RetrySucceedsLast(url, send, tries + 1);
      assert tries + 1 + rest.attempts - 1 == tries + (rest.attempts + 1) - 1;
    }
  }

  /** The wait after attempt n (counting from 1) is 2^n seconds. */
  lemma RetryWaits(url: string, send: nat -> Result<Response>, tries: nat)
    requires tries < MaxRetries
    ensures var run := Retry(url, send, tries);
      forall i :: 0 <= i < |run.sleeps| ==> run.sleeps[i] == Backoff(tries + 1 + i)
  {
    RetrySleeps(url, send, tries);
    BackoffsAt(tries + 1, |Retry(url, send, tries).sleeps|);
  }

  /** A transport error and a final failure status end the request after that attempt. */
  lemma RetryStopsAtFinal(url: string, send: nat -> Result<Response>)
    ensures send(0).Err? ==> Retry(url, send, 0) == RetryRun(Err("request failed: " + send(0).error), 1, [])
    ensures send(0).Ok? && !Success(send(0).value.statusCode) && !Retryable(send(0).value.statusCode) ==>
      Retry(url, send, 0) == RetryRun(Err(StatusError(url, send(0).value)), 1, [])
    ensures send(0).Ok? && Success(send(0).value.statusCode) ==> Retry(url, send, 0) == RetryRun(send(0), 1, [])
  {
  }

  /** Every attempt from `tries` on is answered with a retryable status. */
  ghost predicate AlwaysRetryable(send: nat -> Result<Response>, tries: nat)
  {
    forall n :: tries <= n < MaxRetries ==>
      send(n).Ok? && Retryable(send(n).value.statusCode) && send(n).value.closeError.None?
  }

  /** A server that always answers with a retryable status gets exactly ten attempts, then gives up. */
  lemma {:induction false} RetryExhausted(url: string, send: nat -> Result<Response>, tries: nat)
    requires tries < MaxRetries
    requires AlwaysRetryable(send, tries)
    ensures Retry(url, send, tries).result == Err("request failed after 10 retries")
    ensures Retry(url, send, tries).attempts == MaxRetries - tries
    decreases MaxRetries - tries
  {
    assert send(tries).Ok?;
    if tries + 1 < MaxRetries {
      RetryExhausted(url, send, tries + 1);
    }
  }

  /** `doRequestWithRetries`: sleeping is recorded in `sleeps` instead of waited. */
  method DoRequestWithRetries(url: string, send: nat -> Result<Response>)
    returns (r: Result<Response>, attempts: nat, sleeps: seq<nat>)
    ensures RetryRun(r, attempts, sleeps) == Retry(url, send, 0)
  {
    var tries := 0;
    sleeps := [];
    while true
      invariant 0 <= tries < MaxRetries
      invariant Retry(url, send, 0) == After(tries, sleeps, Retry(url, send, tries))
      decreases MaxRetries - tries
    {
      var reply := send(tries);
      if reply.Err? {
        return Err("request failed: " + reply.error), tries + 1, sleeps;
      }
      var resp := reply.value;
      if Success(resp.statusCode) {
        return Ok(resp), tries + 1, sleeps;
      }
      if !Retryable(resp.statusCode) {
        return Err(StatusError(url, resp)), tries + 1, sleeps;
      }
      if resp.closeError.Some? {
        return Err(resp.closeError.value), tries + 1, sleeps;
      }
      if tries + 1 == MaxRetries {
        return Err("request failed after 10 retries"), tries + 1, sleeps;
      }
      ghost var next := Retry(url, send, tries + 1);
      assert Retry(url, send, tries) == After(1, [Backoff(tries + 1)], next);
      assert sleeps + ([Backoff(tries + 1)] + next.sleeps) == (sleeps + [Backoff(tries + 1)]) + next.sleeps;
      sleeps := sleeps + [Backoff(tries + 1)];
      tries := tries + 1;
    }
  }

  /** A run that follows `attempts` earlier attempts, which waited `sleeps`. */
  function After(attempts: nat, sleeps: seq<nat>, run: RetryRun): RetryRun
  {
    RetryRun(run.result, attempts + run.attempts, sleeps + run.sleeps)
  }

  // ---------------------------------------------------------------------------
  // Requests

  /**
   * A request: its URL without the query, the query, and the Authorization header.
   * `http.NewRequest` takes the query of the URL it is given from the first "?" on.
   */
  datatype Request = Request(url: string, rawQuery: string, authorization: Option<string>)

  function ParseUrl(u: string): (string, string)
  {
    var parts := SplitN2(u, '?');
    if |parts| == 2 then (parts[0], parts[1]) else (u, "")
  }

  /** The query string of the page and page-size parameters, keys in sorted order. */
  function PageQuery(page: nat): string
  {
    "page=" + NatToString(page) + "&page_size=100"
  }

  /**
   * The URL, query and token of a tag-list request, before it is built; `suseToken` is what
   * the SUSE token request returns and `base64` is `base64.StdEncoding.EncodeToString`.
   */
  function RequestParts(registry: string, namespace: string, repository: string, page: nat, nextUrl: string,
                        githubToken: string, suseToken: Result<string>, base64: string -> string)
    : Result<(string, string, string)>
  {
    match registry
    case "dockerhub" =>
      Ok(("https://registry.hub.docker.com/v2/namespaces/" + namespace + "/repositories/" + repository + "/tags",
          PageQuery(page), ""))
    case "quay.io" =>
      Ok(("https://quay.io/api/v1/repository/" + namespace + "/" + repository + "/tag/", PageQuery(page), ""))
    case "registry.k8s.io" =>
      if namespace != "" then Ok(("https://registry.k8s.io/v2/" + namespace + "/" + repository + "/tags/list", "", ""))
      else Ok(("https://registry.k8s.io/v2/" + repository + "/tags/list", "", ""))
    case "registry.suse.com" =>
      var token :- suseToken;
      Ok(("https://registry.suse.com/v2/" + namespace + "/" + repository + "/tags/list", "", token))
    case "ghcr.io" =>
      var token := base64(githubToken);
      if nextUrl != "" then Ok((nextUrl, "", token))
      else Ok(("https://ghcr.io/v2/" + namespace + "/" + repository + "/tags/list", "", token))
    case "gcr.io" =>
      Ok(("https://gcr.io/v2/" + namespace + "/" + repository + "/tags/list", "", ""))
    case _ => Err("unrecognized registry: " + registry)
  }

  function Bearer(token: string): Option<string>
  {
    if token != "" then Some("Bearer " + token) else None
  }

  /** `buildRequest` as written: the query is always replaced by the encoded parameters. */
  function BuildRequestAsWritten(registry: string, namespace: string, repository: string, page: nat, nextUrl: string,
                                 githubToken: string, suseToken: Result<string>, base64: string -> string)
    : (r: Result<Request>)
    ensures RequestParts(registry, namespace, repository, page, nextUrl, githubToken, suseToken, base64).Err? ==>
      r == Err(RequestParts(registry, namespace, repository, page, nextUrl, githubToken, suseToken, base64).error)
    ensures r.Ok? ==>
      r.value.rawQuery == RequestParts(registry, namespace, repository, page, nextUrl, githubToken, suseToken, base64).value.1
  {
    var parts :- RequestParts(registry, namespace, repository, page, nextUrl, githubToken, suseToken, base64);
    Ok(Request(ParseUrl(parts.0).0, parts.1, Bearer(parts.2)))
  }

  /** A URL splits at its first "?" into the part before it and the query. */
  lemma ParseUrlAt(base: string, query: string)
    requires '?' !in base
    ensures ParseUrl(base + "?" + query) == (base, query)
  {
    SplitN2At(base, query, '?');
  }

  /**
   * The request `processRegistryResponse` follows a page with, as (nextUrl, page): the next
   * page number for Docker Hub and quay.io when they report more, the Link header's URL on
   * ghcr.io, and none otherwise.
   */
  function FollowUp(registry: string, page: nat, hasMore: bool, linkHeader: string): (r: Option<(string, nat)>)
    ensures r.Some? && registry in {"dockerhub", "quay.io"} ==> r.value == ("", page + 1)
    ensures r.Some? && registry == "ghcr.io" ==> r.value == ("https://ghcr.io" + ParseLinkHeader(linkHeader), page)
    ensures r.Some? <==> (registry in {"dockerhub", "quay.io"} && hasMore) || (registry == "ghcr.io" && ParseLinkHeader(linkHeader) != "")
  {
    if registry in {"dockerhub", "quay.io"} && hasMore then Some(("", page + 1))
    else if registry == "ghcr.io" && ParseLinkHeader(linkHeader) != "" then
      Some(("https://ghcr.io" + ParseLinkHeader(linkHeader), page))
    else None
  }

  /**
   * On ghcr.io the follow-up of the first page is the first page again: the query of the
   * Link header's URL (such as "last=v1&n=200") is replaced by the empty encoded
   * parameters, so the listing never advances.
   */
  lemma NextPageQueryLost(namespace: string, repository: string, query: string,
                          githubToken: string, base64: string -> string)
    requires '?' !in namespace && '?' !in repository
    ensures var path := "/v2/" + namespace + "/" + repository + "/tags/list";
      var next := FollowUp("ghcr.io", 1, false, "<" + path + "?" + query + NextRel);
      && next == Some(("https://ghcr.io" + path + "?" + query, 1))
      && BuildRequestAsWritten("ghcr.io", namespace, repository, next.value.1, next.value.0, githubToken, Ok(""), base64)
         == BuildRequestAsWritten("ghcr.io", namespace, repository, 1, "", githubToken, Ok(""), base64)
  {
    var path := "/v2/" + namespace + "/" + repository + "/tags/list";
    var base := "https://ghcr.io/v2/" + namespace + "/" + repository + "/tags/list";
    assert base == "https://ghcr.io" + path by {
      assert "https://ghcr.io/v2/" == "https://ghcr.io" + "/v2/";
    }
    var nextUrl := "https://ghcr.io" + path + "?" + query;
    assert nextUrl == "https://ghcr.io" + (path + "?" + query) == base + "?" + query;
    var link := "<" + path + "?" + query + NextRel;
    assert link == "<" + (path + "?" + query) + NextRel;
    LinkHeaderRoundTrip(path + "?" + query);
    assert FollowUp("ghcr.io", 1, false, link) == Some((nextUrl, 1));
    var token := base64(githubToken);
    assert RequestParts("ghcr.io", namespace, repository, 1, nextUrl, githubToken, Ok(""), base64) == Ok((nextUrl, "", token));
    assert RequestParts("ghcr.io", namespace, repository, 1, "", githubToken, Ok(""), base64) == Ok((base, "", token));
    assert '?' !in base by {
      assert '?' !in "https://ghcr.io/v2/" && '?' !in "/tags/list";
    }
    ParseUrlAt(base, query);
    assert ParseUrl(nextUrl).0 == base == ParseUrl(base).0;
  }

  /**
   * `buildRequest` keeping the query of a ghcr.io next-page link, as the per-registry client
   * in tools/internal/autoupdate/registries.go does.
   */
  function BuildRequest(registry: string, namespace: string, repository: string, page: nat, nextUrl: string,
                        githubToken: string, suseToken: Result<string>, base64: string -> string)
    : (r: Result<Request>)
    ensures RequestParts(registry, namespace, repository, page, nextUrl, githubToken, suseToken, base64).Err? ==>
      r == Err(RequestParts(registry, namespace, repository, page, nextUrl, githubToken, suseToken, base64).error)
  {
    var parts :- RequestParts(registry, namespace, repository, page, nextUrl, githubToken, suseToken, base64);
    var (url, query) := ParseUrl(parts.0);
    Ok(Request(url, if parts.1 != "" then parts.1 else query, Bearer(parts.2)))
  }

  /** A ghcr.io next-page link is requested exactly as given, query included. */
  lemma NextPageKept(namespace: string, repository: string, page: nat, nextUrl: string, githubToken: string,
                     suseToken: Result<string>, base64: string -> string)
    requires nextUrl != "" && '?' in nextUrl
    ensures var r := BuildRequest("ghcr.io", namespace, repository, page, nextUrl, githubToken, suseToken, base64);
      r.Ok? && r.value.url + "?" + r.value.rawQuery == nextUrl
  {
  }

  /** With the query kept, the follow-up of a ghcr.io page is the page its Link header names. */
  lemma FollowUpAdvances(path: string, query: string, githubToken: string, base64: string -> string)
    requires '?' !in path
    ensures var next := FollowUp("ghcr.io", 1, false, "<" + path + "?" + query + NextRel);
      && next.Some?
      && BuildRequest("ghcr.io", "o", "r", next.value.1, next.value.0, githubToken, Ok(""), base64)
         == Ok(Request("https://ghcr.io" + path, query, Bearer(base64(githubToken))))
  {
    var base := "https://ghcr.io" + path;
    var nextUrl := "https://ghcr.io" + path + "?" + query;
    GhcrFollowUp(path, query);
    NoQueryOnGhcr(path);
    ParseUrlAt(base, query);
    GhcrRequest("o", "r", 1, nextUrl, githubToken, Ok(""), base64);
  }

  /** A ghcr.io URL built from a path without "?" has no query part. */
  lemma NoQueryOnGhcr(path: string)
    requires '?' !in path
    ensures '?' !in "https://ghcr.io" + path
  {
    var host := "https://ghcr.io";
    forall k | 0 <= k < |host| ensures host[k] != '?' { }
  }

  /** On ghcr.io a page whose Link header names "next" is followed by that URL on ghcr.io. */
  lemma GhcrFollowUp(path: string, query: string)
    ensures FollowUp("ghcr.io", 1, false, "<" + path + "?" + query + NextRel)
      == Some(("https://ghcr.io" + path + "?" + query, 1))
  {
    var link := "<" + path + "?" + query + NextRel;
    assert link == "<" + (path + "?" + query) + NextRel;
    LinkHeaderRoundTrip(path + "?" + query);
    assert "https://ghcr.io" + (path + "?" + query) == "https://ghcr.io" + path + "?" + query;
  }

  /** On ghcr.io a next-page URL is requested as it parses, with the token as bearer. */
  lemma GhcrRequest(namespace: string, repository: string, page: nat, nextUrl: string, githubToken: string,
                    suseToken: Result<string>, base64: string -> string)
    requires nextUrl != ""
    ensures BuildRequest("ghcr.io", namespace, repository, page, nextUrl, githubToken, suseToken, base64)
      == Ok(Request(ParseUrl(nextUrl).0, ParseUrl(nextUrl).1, Bearer(base64(githubToken))))
  {
    assert RequestParts("ghcr.io", namespace, repository, page, nextUrl, githubToken, suseToken, base64)
      == Ok((nextUrl, "", base64(githubToken)));
  }

  /**
   * Which registries are known, which carry the page parameters and a token, and how
   * registry.k8s.io leaves out an empty namespace.
   */
  lemma BuildRequestRules(registry: string, namespace: string, repository: string, page: nat, nextUrl: string,
                          githubToken: string, suseToken: Result<string>, base64: string -> string)
    ensures var r := BuildRequest(registry, namespace, repository, page, nextUrl, githubToken, suseToken, base64);
      && (r.Err? <==>
           (registry !in {"dockerhub", "quay.io", "registry.k8s.io", "registry.suse.com", "ghcr.io", "gcr.io"}
            || (registry == "registry.suse.com" && suseToken.Err?)))
      && (registry !in {"dockerhub", "quay.io", "registry.k8s.io", "registry.suse.com", "ghcr.io", "gcr.io"} ==>
            r == Err("unrecognized registry: " + registry))
      && (registry in {"dockerhub", "quay.io"} ==> r.Ok? && r.value.rawQuery == PageQuery(page))
      && (registry == "registry.k8s.io" && namespace == "" && '?' !in repository ==>
            r == Ok(Request("https://registry.k8s.io/v2/" + repository + "/tags/list", "", None)))
      && (registry == "ghcr.io" && base64(githubToken) != "" ==> r.Ok? && r.value.authorization == Some("Bearer " + base64(githubToken)))
  {
    if registry == "registry.k8s.io" && namespace == "" && '?' !in repository {
      var u := "https://registry.k8s.io/v2/" + repository + "/tags/list";
      assert '?' !in u;
    }
  }

  // ---------------------------------------------------------------------------
  // Validate

  /** `Validate`: at least one image, and a version filter that compiles (`compile` gives its error). */
  function Validate(s: RegistryStrategy, compile: string -> Option<string>): (r: Outcome)
    ensures r.Pass? <==> |s.images| > 0 && (s.versionFilter != "" ==> compile(s.versionFilter).None?)
    ensures |s.images| == 0 ==> r == Fail("must specify at least one image")
    ensures |s.images| > 0 && r.Fail? ==>
      r == Fail("invalid version filter regex: " + compile(s.versionFilter).value)
  {
    if |s.images| == 0 then Fail("must specify at least one image")
    else if s.versionFilter != "" && compile(s.versionFilter).Some? then
      Fail("invalid version filter regex: " + compile(s.versionFilter).value)
    else Pass
  }

  // ---------------------------------------------------------------------------
  // Selecting the tags

  /** The tags the filter matches, in their order. */
  function Filter(tags: seq<string>, matches: string -> bool): (r: seq<string>)
    ensures |r| <= |tags|
    ensures forall t :: t in r <==> t in tags && matches(t)
  {
    if tags == [] then []
    else
      var init := tags[..|tags| - 1];
      var t := tags[|tags| - 1];
      assert tags == init + [t];
      Filter(init, matches) + (if matches(t) then [t] else [])
  }

  method FilterTags(tags: seq<string>, matches: string -> bool) returns (filtered: seq<string>)
    ensures filtered == Filter(tags, matches)
  {
    filtered := [];
    var i := 0;
    while i < |tags|
      invariant 0 <= i <= |tags|
      invariant filtered == Filter(tags[..i], matches)
    {
      assert tags[..i + 1][..i] == tags[..i];
      if matches(tags[i]) {
        filtered := filtered + [tags[i]];
      }
      i := i + 1;
    }
    assert tags[..i] == tags;
  }

  /** Every tag parsed as a version; the first that does not parse aborts. */
  function ParseAll<V>(tags: seq<string>, parse: string -> Result<V>): (r: Result<seq<V>>)
    ensures r.Ok? <==> forall i :: 0 <= i < |tags| ==> parse(tags[i]).Ok?
    ensures r.Ok? ==> |r.value| == |tags| && forall i :: 0 <= i < |tags| ==> Ok(r.value[i]) == parse(tags[i])
    ensures r.Err? ==> exists k :: && 0 <= k < |tags|
                                  && parse(tags[k]).Err?
                                  && (forall j :: 0 <= j < k ==> parse(tags[j]).Ok?)
                                  && r.error == "error parsing version: " + parse(tags[k]).error
  {
    if tags == [] then Ok([])
    else
      var v := parse(tags[0]);
      if v.Err? then Err("error parsing version: " + v.error)
      else
        var rest := ParseAll(tags[1..], parse);
        assert forall i :: 1 <= i < |tags| ==> tags[i] == tags[1..][i - 1];
        if rest.Err? then
          var k :| && 0 <= k < |tags[1..]|
                   && parse(tags[1..][k]).Err?
                   && (forall j :: 0 <= j < k ==> parse(tags[1..][j]).Ok?)
                   && rest.error == "error parsing version: " + parse(tags[1..][k]).error;
          assert parse(tags[k + 1]).Err?;
          rest
        else Ok([v.value] + rest.value)
  }

  /** `le` orders the given versions totally and transitively, as semantic version precedence does. */
  ghost predicate TotalPreorderOn<V>(le: (V, V) -> bool, vs: seq<V>)
  {
    && (forall i, j :: 0 <= i < |vs| && 0 <= j < |vs| ==> le(vs[i], vs[j]) || le(vs[j], vs[i]))
    && (forall i, j, k :: 0 <= i < |vs| && 0 <= j < |vs| && 0 <= k < |vs| && le(vs[i], vs[j]) && le(vs[j], vs[k])
          ==> le(vs[i], vs[k]))
  }

  /** The scan `Newest` performs from position `i` on, with `b` the newest position so far. */
  function NewestFrom<V>(vs: seq<V>, le: (V, V) -> bool, i: nat, b: nat): (r: nat)
    requires b < i <= |vs|
    ensures r < |vs|
    decreases |vs| - i
  {
    if i == |vs| then b
    else NewestFrom(vs, le, i + 1, if !le(vs[i], vs[b]) then i else b)
  }

  /**
   * The position of the newest version: the last one after `sort.Sort`, here found by a
   * single pass; for a total order every version is at most the one there.
   */
  method Newest<V>(vs: seq<V>, le: (V, V) -> bool) returns (b: nat)
    requires |vs| > 0
    ensures b < |vs| && b == NewestFrom(vs, le, 1, 0)
    ensures TotalPreorderOn(le, vs) ==> forall i :: 0 <= i < |vs| ==> le(vs[i], vs[b])
  {
    b := 0;
    var i := 1;
    while i < |vs|
      invariant 1 <= i <= |vs|
      invariant 0 <= b < i
      invariant NewestFrom(vs, le, i, b) == NewestFrom(vs, le, 1, 0)
      invariant TotalPreorderOn(le, vs) ==> forall j :: 0 <= j < i ==> le(vs[j], vs[b])
    {
      if !le(vs[i], vs[b]) {
        if TotalPreorderOn(le, vs) {
          assert le(vs[b], vs[i]);
          forall j | 0 <= j < i ensures le(vs[j], vs[i]) {
            assert le(vs[j], vs[b]) && le(vs[b], vs[i]);
          }
        }
        b := i;
      }
      i := i + 1;
    }
  }

  method ParseVersions<V>(tags: seq<string>, parse: string -> Result<V>) returns (r: Result<seq<V>>)
    ensures r == ParseAll(tags, parse)
  {
    var vs: seq<V> := [];
    var i := 0;
    while i < |tags|
      invariant 0 <= i <= |tags|
      invariant |vs| == i
      invariant forall j :: 0 <= j < i ==> Ok(vs[j]) == parse(tags[j])
    {
      var v := parse(tags[i]);
      if v.Err? {
        r := Err("error parsing version: " + v.error);
        ParseAllFirstError(tags, parse, i);
        return;
      }
      vs := vs + [v.value];
      i := i + 1;
    }
    r := Ok(vs);
    ParseAllValues(tags, parse, vs);
  }

  lemma {:induction false} ParseAllFirstError<V>(tags: seq<string>, parse: string -> Result<V>, k: nat)
    requires k < |tags| && parse(tags[k]).Err?
    requires forall j :: 0 <= j < k ==> parse(tags[j]).Ok?
    ensures ParseAll(tags, parse) == Err("error parsing version: " + parse(tags[k]).error)
  {
    if k > 0 {
      assert tags[1..][k - 1] == tags[k];
      ParseAllFirstError(tags[1..], parse, k - 1);
    }
  }

  lemma {:induction false} ParseAllValues<V>(tags: seq<string>, parse: string -> Result<V>, vs: seq<V>)
    requires |vs| == |tags| && forall j :: 0 <= j < |tags| ==> Ok(vs[j]) == parse(tags[j])
    ensures ParseAll(tags, parse) == Ok(vs)
  {
    if tags != [] {
      assert forall j :: 0 <= j < |tags| - 1 ==> tags[1..][j] == tags[j + 1] && vs[1..][j] == vs[j + 1];
      ParseAllValues(tags[1..], parse, vs[1..]);
      assert vs == [vs[0]] + vs[1..];
    }
  }

  /** The tags `SelectTags` computes, as one expression for the contracts that use them. */
  function SelectedTags<V>(s: RegistryStrategy, allTags: seq<string>, matches: string -> bool,
                           parse: string -> Result<V>, le: (V, V) -> bool, show: V -> string): Result<seq<string>>
  {
    if allTags == [] then Err("no image tags found")
    else
      var candidates := if s.versionFilter != "" then Filter(allTags, matches) else allTags;
      if s.versionFilter != "" && candidates == [] then Err("no tags found matching version filter")
      else if !s.latest then Ok(candidates)
      else
        match ParseAll(candidates, parse)
        case Err(e) => Err(e)
        case Ok(vs) => if vs == [] then Ok([]) else Ok([show(vs[NewestFrom(vs, le, 1, 0)])])
  }

  /**
   * The tags `GetUpdateImages` offers, from all tags of the image: none is an error; with a
   * filter, the matching ones, of which there must be one; with Latest, only the newest.
   */
  method SelectTags<V>(s: RegistryStrategy, allTags: seq<string>, matches: string -> bool,
                       parse: string -> Result<V>, le: (V, V) -> bool, show: V -> string)
    returns (r: Result<seq<string>>)
    ensures r == SelectedTags(s, allTags, matches, parse, le, show)
    ensures allTags == [] ==> r == Err("no image tags found")
    ensures allTags != [] && s.versionFilter != "" && Filter(allTags, matches) == [] ==>
      r == Err("no tags found matching version filter")
    ensures r.Ok? && !s.latest ==>
      r.value == (if s.versionFilter != "" then Filter(allTags, matches) else allTags)
    ensures r.Ok? && s.latest ==>
      var candidates := if s.versionFilter != "" then Filter(allTags, matches) else allTags;
      && ParseAll(candidates, parse).Ok?
      && |r.value| == 1
      && exists i :: && 0 <= i < |candidates|
                     && r.value[0] == show(ParseAll(candidates, parse).value[i])
                     && (TotalPreorderOn(le, ParseAll(candidates, parse).value) ==>
                           forall j :: 0 <= j < |candidates| ==>
                             le(ParseAll(candidates, parse).value[j], ParseAll(candidates, parse).value[i]))
    ensures r.Err? && s.latest && allTags != [] && (s.versionFilter == "" || Filter(allTags, matches) != []) ==>
      var candidates := if s.versionFilter != "" then Filter(allTags, matches) else allTags;
      ParseAll(candidates, parse).Err? && r.error == ParseAll(candidates, parse).error
    ensures r.Err? && !s.latest ==>
      allTags == [] || (s.versionFilter != "" && Filter(allTags, matches) == [])
  {
    if |allTags| == 0 {
      return Err("no image tags found");
    }
    var filtered := allTags;
    if s.versionFilter != "" {
      filtered := FilterTags(allTags, matches);
      if |filtered| == 0 {
        return Err("no tags found matching version filter");
      }
    }
    if s.latest {
      var vs := ParseVersions(filtered, parse);
      if vs.Err? {
        return Err(vs.error);
      }
      var b := Newest(vs.value, le);
      filtered := [show(vs.value[b])];
    }
    r := Ok(filtered);
  }

  // ---------------------------------------------------------------------------
  // Listing every page of tags

  /**
   * One page as `processRegistryResponse` decodes it: its tags, Docker Hub's `next` or
   * quay.io's `has_additional` as `hasMore`, and the response's Link header.
   */
  datatype TagsPage = TagsPage(tags: seq<string>, hasMore: bool, linkHeader: string)

  /**
   * Following `FollowUp` from the request (nextUrl, page) reaches a last page (or an error)
   * within `n` requests. `respond(nextUrl, page)` stands for building that request, sending
   * it with retries, and reading and decoding its body.
   */
  predicate PagesEnd(registry: string, respond: (string, nat) -> Result<TagsPage>, nextUrl: string, page: nat, n: nat)
    decreases n
  {
    && n > 0
    && (respond(nextUrl, page).Ok? ==>
          var p := respond(nextUrl, page).value;
          var next := FollowUp(registry, page, p.hasMore, p.linkHeader);
          next.Some? ==> PagesEnd(registry, respond, next.value.0, next.value.1, n - 1))
  }

  /**
   * `getImageTags` from the request (nextUrl, page) on: this page's tags followed by those of
   * the pages it leads to; the first failed request is the error.
   */
  function AllTags(registry: string, respond: (string, nat) -> Result<TagsPage>, nextUrl: string, page: nat, n: nat)
    : Result<seq<string>>
    requires PagesEnd(registry, respond, nextUrl, page, n)
    decreases n
  {
    match respond(nextUrl, page)
    case Err(e) => Err(e)
    case Ok(p) =>
      match FollowUp(registry, page, p.hasMore, p.linkHeader)
      case None => Ok(p.tags)
      case Some(next) =>
        var rest :- AllTags(registry, respond, next.0, next.1, n - 1);
        Ok(p.tags + rest)
  }

  /**
   * The recursion of `getImageTags` and `processRegistryResponse`, run as a loop: the tags
   * listed so far, then the next request, until a page has no follow-up.
   */
  method GetImageTags(registry: string, respond: (string, nat) -> Result<TagsPage>, ghost n: nat)
    returns (r: Result<seq<string>>)
    requires PagesEnd(registry, respond, "", 1, n)
    ensures r == AllTags(registry, respond, "", 1, n)
  {
    var nextUrl, page := "", 1;
    ghost var fuel := n;
    var tags: seq<string> := [];
    ghost var all := AllTags(registry, respond, "", 1, n);
    if all.Ok? {
      assert [] + all.value == all.value;
    }
    while true
      invariant PagesEnd(registry, respond, nextUrl, page, fuel)
      invariant all == Prepended(tags, AllTags(registry, respond, nextUrl, page, fuel))
      decreases fuel
    {
      var reply := respond(nextUrl, page);
      if reply.Err? {
        return Err(reply.error);
      }
      var next := FollowUp(registry, page, reply.value.hasMore, reply.value.linkHeader);
      if next.None? {
        return Ok(tags + reply.value.tags);
      }
      AllTagsStep(registry, respond, nextUrl, page, fuel, tags);
      tags := tags + reply.value.tags;
      nextUrl, page := next.value.0, next.value.1;
      fuel := fuel - 1;
    }
  }

  /** The tags listed so far in front of the listing of the rest, or the rest's error. */
  function Prepended(tags: seq<string>, rest: Result<seq<string>>): Result<seq<string>>
  {
    if rest.Ok? then Ok(tags + rest.value) else rest
  }

  /** A page with a follow-up adds its tags to those listed so far, and the listing goes on from the follow-up. */
  lemma AllTagsStep(registry: string, respond: (string, nat) -> Result<TagsPage>, nextUrl: string, page: nat, n: nat,
                    tags: seq<string>)
    requires PagesEnd(registry, respond, nextUrl, page, n)
    requires respond(nextUrl, page).Ok?
    requires FollowUp(registry, page, respond(nextUrl, page).value.hasMore, respond(nextUrl, page).value.linkHeader).Some?
    ensures var p := respond(nextUrl, page).value;
      var next := FollowUp(registry, page, p.hasMore, p.linkHeader).value;
      && PagesEnd(registry, respond, next.0, next.1, n - 1)
      && Prepended(tags, AllTags(registry, respond, nextUrl, page, n))
         == Prepended(tags + p.tags, AllTags(registry, respond, next.0, next.1, n - 1))
  {
    var p := respond(nextUrl, page).value;
    var next := FollowUp(registry, page, p.hasMore, p.linkHeader).value;
    var rest := AllTags(registry, respond, next.0, next.1, n - 1);
    assert AllTags(registry, respond, nextUrl, page, n) == Prepended(p.tags, rest);
    PrependedTwice(tags, p.tags, rest);
  }

  /** Prepending two runs of tags one after the other is prepending them together. */
  lemma PrependedTwice(tags: seq<string>, more: seq<string>, rest: Result<seq<string>>)
    ensures Prepended(tags, Prepended(more, rest)) == Prepended(tags + more, rest)
  {
    if rest.Ok? {
      assert tags + (more + rest.value) == (tags + more) + rest.value;
    }
  }

  /** The tags of the numbered pages page, ..., page + k, in order. */
  function NumberedTags(respond: (string, nat) -> Result<TagsPage>, page: nat, k: nat): seq<string>
    requires forall i :: page <= i <= page + k ==> respond("", i).Ok?
    decreases k
  {
    if k == 0 then respond("", page).value.tags
    else respond("", page).value.tags + NumberedTags(respond, page + 1, k - 1)
  }

  /**
   * Docker Hub and quay.io: when pages page, ..., page + k - 1 report more and page + k does
   * not, the listing ends after k + 1 requests and is the concatenation of their tags.
   */
  lemma {:induction false} NumberedPagesConcat(registry: string, respond: (string, nat) -> Result<TagsPage>,
                                               page: nat, k: nat)
    requires registry in {"dockerhub", "quay.io"}
    requires forall i :: page <= i <= page + k ==> respond("", i).Ok?
    requires forall i :: page <= i < page + k ==> respond("", i).value.hasMore
    requires !respond("", page + k).value.hasMore
    ensures PagesEnd(registry, respond, "", page, k + 1)
    ensures AllTags(registry, respond, "", page, k + 1) == Ok(NumberedTags(respond, page, k))
    decreases k
  {
    assert respond("", page).Ok?;
    var p := respond("", page).value;
    if k == 0 {
      assert FollowUp(registry, page, p.hasMore, p.linkHeader).None?;
    } else {
      assert p.hasMore;
      assert FollowUp(registry, page, p.hasMore, p.linkHeader) == Some(("", page + 1));
      NumberedPagesConcat(registry, respond, page + 1, k - 1);
    }
  }

  /** Registries without pagination answer with the tags of a single request. */
  lemma SinglePage(registry: string, respond: (string, nat) -> Result<TagsPage>, nextUrl: string, page: nat)
    requires registry in {"registry.k8s.io", "registry.suse.com", "gcr.io"}
    ensures PagesEnd(registry, respond, nextUrl, page, 1)
    ensures respond(nextUrl, page).Ok? ==> AllTags(registry, respond, nextUrl, page, 1) == Ok(respond(nextUrl, page).value.tags)
    ensures respond(nextUrl, page).Err? ==> AllTags(registry, respond, nextUrl, page, 1) == Err(respond(nextUrl, page).error)
  {
  }

  /**
   * `GetUpdateImages` once the tags of the image are known: the selected tags, offered under
   * every configured image reference.
   */
  method ImagesFromTags<V>(s: RegistryStrategy, allTags: seq<string>, matches: string -> bool,
                            parse: string -> Result<V>, le: (V, V) -> bool, show: V -> string)
    returns (r: Result<seq<ArtifactFields>>)
    ensures allTags == [] ==> r == Err("no image tags found")
    ensures var sel := SelectedTags(s, allTags, matches, parse, le, show);
      && (sel.Err? ==> r == Err(sel.error))
      && (sel.Ok? ==> (r.Ok? <==> forall i :: 0 <= i < |s.images| ==> '/' in s.images[i].sourceImage))
      && (r.Ok? ==> sel.Ok? && |r.value| == |s.images| && forall i :: 0 <= i < |s.images| ==> r.value[i].tags == sel.value)
      && (r.Err? && sel.Ok? ==>
            exists k :: && 0 <= k < |s.images|
                        && '/' !in s.images[k].sourceImage
                        && r.error == NewImage(s.images[k].sourceImage, sel.value, s.images[k].targetImageName).error)
    ensures r.Ok? ==> |r.value| == |s.images|
    ensures r.Ok? ==> forall i :: 0 <= i < |s.images| ==>
      && r.value[i].sourceArtifact == s.images[i].sourceImage
      && r.value[i].tags == r.value[0].tags
      && TargetName(r.value[i]) == (if s.images[i].targetImageName != "" then s.images[i].targetImageName
                                    else r.value[i].defaultTargetArtifactName)
    ensures r.Ok? && !s.latest && |s.images| > 0 ==>
      r.value[0].tags == (if s.versionFilter != "" then Filter(allTags, matches) else allTags)
    ensures r.Ok? && s.latest ==> forall i :: 0 <= i < |s.images| ==> |r.value[i].tags| == 1
  {
    var tags := SelectTags(s, allTags, matches, parse, le, show);
    if tags.Err? {
      return Err(tags.error);
    }
    r := FanOut(s.images, tags.value, (ref, e) => e);
  }

  /**
   * `GetUpdateImages`: the tags of the first configured image, listed page by page from
   * page 1 in the registry its reference names, then selected and offered under every
   * configured reference. The Go code indexes the first image and its "/"-segments
   * unchecked, so both must exist.
   */
  method GetUpdateImages<V>(s: RegistryStrategy, respond: (string, nat) -> Result<TagsPage>, ghost n: nat,
                            matches: string -> bool, parse: string -> Result<V>, le: (V, V) -> bool,
                            show: V -> string)
    returns (r: Result<seq<ArtifactFields>>)
    requires |s.images| > 0 && '/' in s.images[0].sourceImage
    requires PagesEnd(RegistryInformation(s.images[0].sourceImage).registry, respond, "", 1, n)
    ensures var listed := AllTags(RegistryInformation(s.images[0].sourceImage).registry, respond, "", 1, n);
      && (listed.Err? ==> r == Err("failed to get image tags: " + listed.error))
      && (listed.Ok? ==>
            var sel := SelectedTags(s, listed.value, matches, parse, le, show);
            && (sel.Err? ==> r == Err(sel.error))
            && (sel.Ok? ==> (r.Ok? <==> forall i :: 0 <= i < |s.images| ==> '/' in s.images[i].sourceImage))
            && (r.Ok? ==>
                  && sel.Ok? && |r.value| == |s.images|
                  && forall i :: 0 <= i < |s.images| ==>
                       && r.value[i].sourceArtifact == s.images[i].sourceImage
                       && r.value[i].tags == sel.value))
  {
    var info := RegistryInformation(s.images[0].sourceImage);
    var listed := GetImageTags(info.registry, respond, n);
    if listed.Err? {
      return Err("failed to get image tags: " + listed.error);
    }
    r := ImagesFromTags(s, listed.value, matches, parse, le, show);
  }
}
