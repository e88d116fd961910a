/**
 * The GithubTaggedImagesFile autoupdate strategy
 * (tools/internal/autoupdate/githubtaggedimagesfile.go): for every published release whose
 * tag is a version within the constraint, a text file of "repository:tag" lines is read
 * at that tag, and every repository found becomes an image of the configured reference
 * for it.
 *
 * The GitHub API is a parameter: `list(p)` is the page of releases for page number `p`,
 * `fetch(tag)` the file at that tag. `parse` is `semver.NewVersion` and a compiled
 * constraint is its `Check`.
 */
module TaggedImagesFile {
  import opened Wrappers
  import opened Text
  import opened Dynamic
  import opened Artifacts
  import opened Strategies
  import opened Accumulator
  import opened GithubReleases

  datatype GithubTaggedImagesFile = GithubTaggedImagesFile(owner: string, repository: string, imagesFilePath: string,
                                                           versionConstraint: string, images: seq<ImageRef>)

  type TagsMap = map<string, seq<string>>

  // ---------------------------------------------------------------------------
  // Lines

  /** A line without the carriage return that may end it. */
  function DropCR(s: string): string
  {
    if |s| > 0 && s[|s| - 1] == '\r' then s[..|s| - 1] else s
  }

  /**
   * The lines `bufio.ScanLines` yields: the text between newlines, each without a final
   * carriage return, and no empty line after a final newline.
   */
  function ScanLines(content: string): (lines: seq<string>)
    ensures forall i :: 0 <= i < |lines| ==> '\n' !in lines[i]
  {
    var parts := Split(content, '\n');
    var kept := if parts[|parts| - 1] == "" then parts[..|parts| - 1] else parts;
    seq(|kept|, i requires 0 <= i < |kept| => DropCR(kept[i]))
  }

  /** Lines joined by newlines, with one more at the end, split back into the lines and an empty tail. */
  lemma SplitTerminatedLines(lines: seq<string>)
    requires |lines| >= 1
    requires forall i :: 0 <= i < |lines| ==> '\n' !in lines[i]
    ensures Split(Join(lines, '\n') + "\n", '\n') == lines + [""]
  {
    var body := Join(lines, '\n');
    assert body + "\n" == body + ['\n'] + "";
    SplitAround(body, "", '\n');
    SplitJoin(lines, '\n');
    SplitNoSep("", '\n');
  }

  /** Lines written one per row, each ended by a newline, are scanned back as they were. */
  lemma ScanLinesRoundTrip(lines: seq<string>)
    requires |lines| >= 1
    requires forall i :: 0 <= i < |lines| ==> '\n' !in lines[i] && DropCR(lines[i]) == lines[i]
    ensures ScanLines(Join(lines, '\n') + "\n") == lines
  {
    SplitTerminatedLines(lines);
    var parts := lines + [""];
    assert parts[..|parts| - 1] == lines;
  }

  /** An empty file has no lines. */
  lemma ScanLinesEmpty()
    ensures ScanLines("") == []
  {
  }

  // ---------------------------------------------------------------------------
  // One line

  /** The test as written: `strings.HasPrefix("rancher/", repository)`, its arguments reversed. */
  predicate SkippedAsWritten(repository: string)
  {
    HasPrefix("rancher/", repository)
  }

  /** The evidently intended test: the repository is one of Rancher's own. */
  predicate SkippedRancher(repository: string)
  {
    HasPrefix(repository, "rancher/")
  }

  /**
   * One line of the images file: blank after trimming is nothing, otherwise it must split
   * on ":" into a repository (without a leading "docker.io/") and a tag, and repositories
   * the skip test selects are nothing.
   */
  function ParseLine(line: string, skip: string -> bool): (r: Result<Option<(string, string)>>)
    ensures TrimSpace(line) == "" ==> r == Ok(None)
    ensures r.Err? <==> TrimSpace(line) != "" && |Split(TrimSpace(line), ':')| != 2
    ensures r.Err? ==> r.error == "image " + Quote(TrimSpace(line)) + " did not split into two on \":\""
    ensures r.Ok? && r.value.Some? ==>
      && ':' !in r.value.value.0 && ':' !in r.value.value.1 && !skip(r.value.value.0)
      && (|| TrimSpace(line) == r.value.value.0 + ":" + r.value.value.1
          || TrimSpace(line) == DockerIoPrefix + r.value.value.0 + ":" + r.value.value.1)
  {
    var trimmed := TrimSpace(line);
    if trimmed == "" then Ok(None)
    else
      var parts := Split(trimmed, ':');
      if |parts| != 2 then Err("image " + Quote(trimmed) + " did not split into two on \":\"")
      else
        var repository := TrimPrefix(parts[0], DockerIoPrefix);
        if skip(repository) then Ok(None)
        else
          JoinSplit(trimmed, ':');
          assert Join(parts, ':') == parts[0] + [':'] + parts[1];
          assert ':' !in repository by {
            if HasPrefix(parts[0], DockerIoPrefix) {
              assert repository == parts[0][|DockerIoPrefix|..];
            }
          }
          assert (DockerIoPrefix + repository) + ":" + parts[1] == DockerIoPrefix + repository + ":" + parts[1];
          Ok(Some((repository, parts[1])))
  }

  /** A trimmed "repository:tag" line: the repository loses a leading "docker.io/" and is kept unless skipped. */
  lemma ParseLineOf(line: string, repository: string, tag: string, skip: string -> bool)
    requires line == repository + ":" + tag && ':' !in repository && ':' !in tag
    requires !IsSpace(line[0]) && !IsSpace(line[|line| - 1])
    ensures var name := TrimPrefix(repository, DockerIoPrefix);
      ParseLine(line, skip) == if skip(name) then Ok(None) else Ok(Some((name, tag)))
  {
    TrimSpaceTrimmed(line);
    SplitNoSep(repository, ':');
    SplitNoSep(tag, ':');
    SplitAround(repository, tag, ':');
  }

  /** "repository:tag" lines, with or without "docker.io/", are read back as written. */
  lemma ParseLineRoundTrip(repository: string, tag: string, skip: string -> bool)
    requires ':' !in repository && ':' !in tag && repository != "" && tag != ""
    requires !IsSpace(repository[0]) && !IsSpace(tag[|tag| - 1])
    requires !HasPrefix(repository, DockerIoPrefix) && !skip(repository)
    ensures ParseLine(repository + ":" + tag, skip) == Ok(Some((repository, tag)))
    ensures ParseLine(DockerIoPrefix + repository + ":" + tag, skip) == Ok(Some((repository, tag)))
  {
    ParseLineOf(repository + ":" + tag, repository, tag, skip);
    var hub := DockerIoPrefix + repository;
    assert DockerIoPrefix + repository + ":" + tag == hub + ":" + tag;
    assert hub[0] == 'd';
    ParseLineOf(hub + ":" + tag, hub, tag, skip);
    TrimPrefixOfPrefixed(DockerIoPrefix, repository);
  }

  /**
   * As written, Rancher's own images are recorded, while the repositories "rancher" and
   * "r" are skipped.
   */
  lemma RancherImagesNotSkipped()
    ensures ParseLine("rancher/longhorn-manager:v1.4.0", SkippedAsWritten) == Ok(Some(("rancher/longhorn-manager", "v1.4.0")))
    ensures ParseLine("rancher:v1", SkippedAsWritten) == Ok(None)
  {
    var longhorn, tag := "rancher/longhorn-manager", "v1.4.0";
    assert !SkippedAsWritten(longhorn);
    assert !HasPrefix(longhorn, DockerIoPrefix) by {
      assert longhorn[0] == 'r' && DockerIoPrefix[0] == 'd';
    }
    assert "rancher/longhorn-manager:v1.4.0" == longhorn + ":" + tag;
    ParseLineOf(longhorn + ":" + tag, longhorn, tag, SkippedAsWritten);
    RancherRepositorySkipped();
  }

  /** As written, the repository "rancher" itself is skipped. */
  lemma RancherRepositorySkipped()
    ensures ParseLine("rancher:v1", SkippedAsWritten) == Ok(None)
  {
    assert SkippedAsWritten("rancher") && !HasPrefix("rancher", DockerIoPrefix) by {
      assert "rancher/"[..|"rancher"|] == "rancher";
    }
    assert "rancher:v1" == "rancher" + ":" + "v1";
    ParseLineOf("rancher" + ":" + "v1", "rancher", "v1", SkippedAsWritten);
  }

  /** With the intended test, every "rancher/..." line is skipped and no Rancher repository is recorded. */
  lemma RancherImagesSkipped(name: string, tag: string, line: string)
    requires ':' !in name && ':' !in tag && tag != "" && !IsSpace(tag[|tag| - 1])
    ensures ParseLine("rancher/" + name + ":" + tag, SkippedRancher) == Ok(None)
    ensures ParseLine(line, SkippedRancher).Ok? && ParseLine(line, SkippedRancher).value.Some? ==>
      !HasPrefix(ParseLine(line, SkippedRancher).value.value.0, "rancher/")
  {
    var repository := "rancher/" + name;
    assert ':' !in repository && repository[0] == 'r';
    assert !HasPrefix(repository, DockerIoPrefix);
    assert SkippedRancher(repository) by {
      assert repository[..|"rancher/"|] == "rancher/";
    }
    ParseLineOf(repository + ":" + tag, repository, tag, SkippedRancher);
  }

  // ---------------------------------------------------------------------------
  // The images file

  /** `parseImagesFromContent` over the lines: every line recorded in order; the first bad line aborts. */
  function ParseLines(lines: seq<string>, m: TagsMap, skip: string -> bool): Result<TagsMap>
  {
    if lines == [] then Ok(m)
    else
      match ParseLine(lines[0], skip)
      case Err(e) => Err(e)
      case Ok(None) => ParseLines(lines[1..], m, skip)
      case Ok(Some(ref)) => ParseLines(lines[1..], AddTag(m, ref.0, ref.1), skip)
  }

  /** Reading lines keeps what was recorded before, and records every line's repository and tag unless it is skipped. */
  lemma {:induction false} ParseLinesRecords(lines: seq<string>, m: TagsMap, skip: string -> bool)
    ensures var r := ParseLines(lines, m, skip);
      r.Ok? ==>
        && m.Keys <= r.value.Keys
        && (forall k :: k in m ==> m[k] <= r.value[k])
        && (forall i :: 0 <= i < |lines| ==>
              && ParseLine(lines[i], skip).Ok?
              && var ref := ParseLine(lines[i], skip).value;
              && (ref.Some? ==> ref.value.0 in r.value && ref.value.1 in r.value[ref.value.0]))
  {
    if lines != [] {
      var r := ParseLines(lines, m, skip);
      match ParseLine(lines[0], skip)
      case Err(_) =>
      case Ok(ref) =>
        var m' := if ref.Some? then AddTag(m, ref.value.0, ref.value.1) else m;
        ParseLinesRecords(lines[1..], m', skip);
        if r.Ok? {
          assert r == ParseLines(lines[1..], m', skip);
          forall k | k in m ensures m[k] <= r.value[k] {
            assert m[k] <= m'[k];
          }
          forall i | 0 <= i < |lines|
            ensures ParseLine(lines[i], skip).Ok?
            ensures var ref := ParseLine(lines[i], skip).value;
              ref.Some? ==> ref.value.0 in r.value && ref.value.1 in r.value[ref.value.0]
          {
            if i == 0 {
              if ref.Some? {
                assert ref.value.1 in m'[ref.value.0];
                assert m'[ref.value.0] <= r.value[ref.value.0];
              }
            } else {
              assert lines[i] == lines[1..][i - 1];
            }
          }
        }
    }
  }

  /** Reading lines keeps every tag list free of duplicates. */
  lemma {:induction false} ParseLinesNoDup(lines: seq<string>, m: TagsMap, skip: string -> bool)
    requires NoDupLists(m)
    ensures ParseLines(lines, m, skip).Ok? ==> NoDupLists(ParseLines(lines, m, skip).value)
  {
    if lines != [] {
      match ParseLine(lines[0], skip)
      case Err(_) =>
      case Ok(None) => ParseLinesNoDup(lines[1..], m, skip);
      case Ok(Some(ref)) =>
        AddTagNoDup(m, ref.0, ref.1);
        ParseLinesNoDup(lines[1..], AddTag(m, ref.0, ref.1), skip);
    }
  }

  /** One line read step by step, as the loop of `parseImagesFromContent` does. */
  lemma ParseLineCases(line: string, skip: string -> bool)
    ensures var trimmed := TrimSpace(line);
      var parts := Split(trimmed, ':');
      ParseLine(line, skip) ==
        if trimmed == "" then Ok(None)
        else if |parts| != 2 then Err("image " + Quote(trimmed) + " did not split into two on \":\"")
        else if skip(TrimPrefix(parts[0], DockerIoPrefix)) then Ok(None)
        else Ok(Some((TrimPrefix(parts[0], DockerIoPrefix), parts[1])))
  {
  }

  /**
   * Reading the lines from `i` on is reading line `i`, then the lines after it: a line's
   * error ends the reading, otherwise it goes on from the map the line left.
   */
  lemma ParseLinesStep(lines: seq<string>, i: nat, before: TagsMap, after: TagsMap, err: Option<string>,
                       skip: string -> bool)
    requires i < |lines|
    requires var r := ParseLine(lines[i], skip);
      && (r.Err? ==> err == Some(r.error))
      && (r.Ok? && r.value.None? ==> err.None? && after == before)
      && (r.Ok? && r.value.Some? ==> err.None? && after == AddTag(before, r.value.value.0, r.value.value.1))
    ensures err.Some? ==> ParseLines(lines[i..], before, skip) == Err(err.value)
    ensures err.None? ==> ParseLines(lines[i..], before, skip) == ParseLines(lines[i + 1..], after, skip)
  {
    assert lines[i..][0] == lines[i];
    assert lines[i..][1..] == lines[i + 1..];
  }

  /** One round of `parseImagesFromContent`'s loop: the line's error, or its repository and tag recorded. */
  method ParseImageLine(rawLine: string, imageMap: TagMap) returns (err: Option<string>)
    modifies imageMap
    ensures var r := ParseLine(rawLine, SkippedAsWritten);
      && (r.Err? ==> err == Some(r.error))
      && (r.Ok? && r.value.None? ==> err.None? && imageMap.tags == old(imageMap.tags))
      && (r.Ok? && r.value.Some? ==> err.None? && imageMap.tags == AddTag(old(imageMap.tags), r.value.value.0, r.value.value.1))
  {
    ParseLineCases(rawLine, SkippedAsWritten);
    var line := TrimSpace(rawLine);
    if line == "" {
      return None;
    }
    var parts := Split(line, ':');
    if |parts| != 2 {
      return Some("image " + Quote(line) + " did not split into two on \":\"");
    }
    var repository := TrimPrefix(parts[0], DockerIoPrefix);
    var tag := parts[1];
    if !HasPrefix("rancher/", repository) {
      imageMap.Add(repository, tag);
    }
    err := None;
  }

  /** The loop of `parseImagesFromContent` over the scanned lines. */
  method ParseImageLines(lines: seq<string>, imageMap: TagMap) returns (err: Option<string>)
    modifies imageMap
    ensures err.None? ==> ParseLines(lines, old(imageMap.tags), SkippedAsWritten) == Ok(imageMap.tags)
    ensures err.Some? ==> ParseLines(lines, old(imageMap.tags), SkippedAsWritten) == Err(err.value)
  {
    ghost var total := ParseLines(lines, imageMap.tags, SkippedAsWritten);
    err := None;
    var i := 0;
    while i < |lines|
      invariant 0 <= i <= |lines|
      invariant err.None?
      invariant total == ParseLines(lines[i..], imageMap.tags, SkippedAsWritten)
    {
      ghost var before := imageMap.tags;
      err := ParseImageLine(lines[i], imageMap);
      ParseLinesStep(lines, i, before, imageMap.tags, err, SkippedAsWritten);
      if err.Some? {
        return;
      }
      i := i + 1;
    }
    assert lines[i..] == [];
  }

  /** `parseImagesFromContent` on the shared repository-to-tags map, with the skip test as written. */
  method ParseImagesFromContent(content: string, imageMap: TagMap) returns (err: Option<string>)
    modifies imageMap
    ensures err.None? ==> ParseLines(ScanLines(content), old(imageMap.tags), SkippedAsWritten) == Ok(imageMap.tags)
    ensures err.Some? ==> ParseLines(ScanLines(content), old(imageMap.tags), SkippedAsWritten) == Err(err.value)
  {
    err := ParseImageLines(ScanLines(content), imageMap);
  }

  // ---------------------------------------------------------------------------
  // Releases

  /** The file at a tag: the request failed, its content could not be decoded, or its text. */
  datatype Fetched = FetchFailed | DecodeFailed(error: string) | Content(text: string)

  /** All releases of every page, in page order. */
  function AllReleases(list: nat -> Result<Page>, page: nat, n: nat): (r: Result<seq<Release>>)
    requires ChainEnds(list, page, n)
    ensures list(page).Ok? && list(page).value.nextPage == 0 ==> r == Ok(list(page).value.releases)
    decreases n
  {
    match list(page)
    case Err(e) => Err("failed to list releases: " + e)
    case Ok(p) =>
      if p.nextPage == 0 then Ok(p.releases)
      else
        var rest :- AllReleases(list, p.nextPage, n - 1);
        Ok(p.releases + rest)
  }

  method ListAllReleases(list: nat -> Result<Page>, ghost bound: nat) returns (r: Result<seq<Release>>)
    requires ChainEnds(list, 0, bound)
    ensures r == AllReleases(list, 0, bound)
  {
    var page := 0;
    ghost var n := bound;
    var releases: seq<Release> := [];
    ghost var all := AllReleases(list, 0, bound);
    if all.Ok? {
      assert [] + all.value == all.value;
    }
    while true
      invariant ChainEnds(list, page, n)
      invariant all == (var rest := AllReleases(list, page, n); if rest.Ok? then Ok(releases + rest.value) else rest)
      decreases n
    {
      var reply := list(page);
      if reply.Err? {
        return Err("failed to list releases: " + reply.error);
      }
      if reply.value.nextPage == 0 {
        return Ok(releases + reply.value.releases);
      }
      ghost var rest := AllReleases(list, reply.value.nextPage, n - 1);
      if rest.Ok? {
        assert releases + (reply.value.releases + rest.value) == (releases + reply.value.releases) + rest.value;
      }
      releases := releases + reply.value.releases;
      page := reply.value.nextPage;
      n := n - 1;
    }
  }

  /** A release whose file is read: published, tagged, and a version within the constraint. */
  predicate Selected<V>(release: Release, parse: string -> Result<V>, check: V -> bool)
  {
    && !release.draft && !release.prerelease && release.tagName != ""
    && parse(release.tagName).Ok? && check(parse(release.tagName).value)
  }

  /** The repository-to-tags map after reading the file of every selected release, in order. */
  function CollectImages<V>(releases: seq<Release>, m: TagsMap, parse: string -> Result<V>, check: V -> bool,
                            path: string, fetch: string -> Fetched): Result<TagsMap>
  {
    if releases == [] then Ok(m)
    else
      var tag := releases[0].tagName;
      if !Selected(releases[0], parse, check) then CollectImages(releases[1..], m, parse, check, path, fetch)
      else
        match fetch(tag)
        case FetchFailed => Err("failed to get contents of " + path + " for release " + tag)
        case DecodeFailed(e) => Err("failed to decode file content for release " + tag + ": " + e)
        case Content(text) =>
          match ParseLines(ScanLines(text), m, SkippedAsWritten)
          case Err(e) => Err("failed to parse images from file content for release " + tag + ": " + e)
          case Ok(m') => CollectImages(releases[1..], m', parse, check, path, fetch)
  }

  /** Releases that are not selected are never read: dropping them changes nothing. */
  lemma {:induction false} CollectImagesIgnoresUnselected<V>(releases: seq<Release>, m: TagsMap, parse: string -> Result<V>,
                                                             check: V -> bool, path: string, fetch: string -> Fetched,
                                                             fetch': string -> Fetched)
    requires forall i :: 0 <= i < |releases| && Selected(releases[i], parse, check) ==>
      fetch(releases[i].tagName) == fetch'(releases[i].tagName)
    ensures CollectImages(releases, m, parse, check, path, fetch) == CollectImages(releases, m, parse, check, path, fetch')
  {
    if releases != [] {
      assert forall i :: 1 <= i < |releases| ==> releases[1..][i - 1] == releases[i];
      if !Selected(releases[0], parse, check) {
        CollectImagesIgnoresUnselected(releases[1..], m, parse, check, path, fetch, fetch');
      } else {
        match fetch(releases[0].tagName)
        case FetchFailed =>
        case DecodeFailed(_) =>
        case Content(text) =>
          match ParseLines(ScanLines(text), m, SkippedAsWritten)
          case Err(_) =>
          case Ok(m') => CollectImagesIgnoresUnselected(releases[1..], m', parse, check, path, fetch, fetch');
      }
    }
  }

  /** The tag lists built from the selected releases' files are free of duplicates. */
  lemma {:induction false} CollectImagesNoDup<V>(releases: seq<Release>, m: TagsMap, parse: string -> Result<V>,
                                                 check: V -> bool, path: string, fetch: string -> Fetched)
    requires NoDupLists(m)
    ensures CollectImages(releases, m, parse, check, path, fetch).Ok? ==>
      NoDupLists(CollectImages(releases, m, parse, check, path, fetch).value)
  {
    if releases != [] {
      if !Selected(releases[0], parse, check) {
        CollectImagesNoDup(releases[1..], m, parse, check, path, fetch);
      } else {
        match fetch(releases[0].tagName)
        case FetchFailed =>
        case DecodeFailed(_) =>
        case Content(text) =>
          ParseLinesNoDup(ScanLines(text), m, SkippedAsWritten);
          match ParseLines(ScanLines(text), m, SkippedAsWritten)
          case Err(_) =>
          case Ok(m') => CollectImagesNoDup(releases[1..], m', parse, check, path, fetch);
      }
    }
  }

  /** The loop over the releases, reading each selected release's file into the shared map. */
  method ReadReleaseFiles<V>(releases: seq<Release>, imageMap: TagMap, parse: string -> Result<V>, check: V -> bool,
                             path: string, fetch: string -> Fetched)
    returns (err: Option<string>)
    modifies imageMap
    ensures err.None? ==> CollectImages(releases, old(imageMap.tags), parse, check, path, fetch) == Ok(imageMap.tags)
    ensures err.Some? ==> CollectImages(releases, old(imageMap.tags), parse, check, path, fetch) == Err(err.value)
  {
    var i := 0;
    while i < |releases|
      invariant 0 <= i <= |releases|
      invariant CollectImages(releases, old(imageMap.tags), parse, check, path, fetch) ==
                CollectImages(releases[i..], imageMap.tags, parse, check, path, fetch)
    {
      assert releases[i..][1..] == releases[i + 1..];
      var release := releases[i];
      var tag := release.tagName;
      if !release.draft && !release.prerelease && tag != "" {
        var version := parse(tag);
        if version.Ok? && check(version.value) {
          var file := fetch(tag);
          if file.FetchFailed? {
            return Some("failed to get contents of " + path + " for release " + tag);
          }
          if file.DecodeFailed? {
            return Some("failed to decode file content for release " + tag + ": " + file.error);
          }
          var e := ParseImagesFromContent(file.text, imageMap);
          if e.Some? {
            return Some("failed to parse images from file content for release " + tag + ": " + e.value);
          }
        }
      }
      i := i + 1;
    }
    err := None;
  }

  /** The repository-to-tags map of the whole run: the constraint, the release listing, then the files. */
  function FoundImages<V>(g: GithubTaggedImagesFile, newConstraint: string -> Result<V -> bool>,
                          list: nat -> Result<Page>, bound: nat, parse: string -> Result<V>,
                          fetch: string -> Fetched): Result<TagsMap>
    requires ChainEnds(list, 0, bound)
  {
    match newConstraint(g.versionConstraint)
    case Err(e) => Err("failed to parse version constraint " + Quote(g.versionConstraint) + ": " + e)
    case Ok(check) =>
      match AllReleases(list, 0, bound)
      case Err(e) => Err(e)
      case Ok(releases) => CollectImages(releases, map[], parse, check, g.imagesFilePath, fetch)
  }

  /**
   * `GetUpdateImages`: an image for every repository found, under the target name of its
   * configured reference and with the tags found for it; a repository without a reference
   * is an error.
   */
  method GetUpdateImages<V>(g: GithubTaggedImagesFile, newConstraint: string -> Result<V -> bool>,
                            list: nat -> Result<Page>, ghost bound: nat, parse: string -> Result<V>,
                            fetch: string -> Fetched)
    returns (r: Result<seq<ArtifactFields>>)
    requires ChainEnds(list, 0, bound)
    ensures var found := FoundImages(g, newConstraint, list, bound, parse, fetch);
      && (found.Err? ==> r == Err(found.error))
      && (found.Ok? ==> (r.Ok? <==> forall k :: k in found.value ==> Convertible(g.images, k)))
      && (r.Ok? ==>
            && found.Ok?
            && NoDupLists(found.value)
            && (forall i, j :: 0 <= i < j < |r.value| ==> r.value[i].sourceArtifact != r.value[j].sourceArtifact)
            && (forall v :: v in r.value ==>
                  && v.sourceArtifact in found.value
                  && Ok(v) == NewImage(v.sourceArtifact, found.value[v.sourceArtifact],
                                       TargetFor(g.images, v.sourceArtifact)))
            && (forall k :: k in found.value ==> exists v :: v in r.value && v.sourceArtifact == k))
      && (r.Err? && found.Ok? ==>
            exists k :: && k in found.value
                        && !Convertible(g.images, k)
                        && r.error == ConvertError(g.images, k, found.value[k],
                                                   (s, e) => "failed to create image for " + s + ": " + e))
  {
    var check := newConstraint(g.versionConstraint);
    if check.Err? {
      return Err("failed to parse version constraint " + Quote(g.versionConstraint) + ": " + check.error);
    }
    var releases := ListAllReleases(list, bound);
    if releases.Err? {
      return Err(releases.error);
    }
    var imageMap := new TagMap();
    var err := ReadReleaseFiles(releases.value, imageMap, parse, check.value, g.imagesFilePath, fetch);
    if err.Some? {
      return Err(err.value);
    }
    CollectImagesNoDup(releases.value, map[], parse, check.value, g.imagesFilePath, fetch);
    var found := imageMap.tags;
    var order := MapOrder(found);
    r := ImagesFromMap(found, order, g.images, (s, e) => "failed to create image for " + s + ": " + e);
    if r.Ok? {
      forall i, j | 0 <= i < j < |r.value| ensures r.value[i].sourceArtifact != r.value[j].sourceArtifact {
        assert order[i] != order[j];
      }
      forall k | k in found ensures exists v :: v in r.value && v.sourceArtifact == k {
        var j :| 0 <= j < |order| && order[j] == k;
        assert r.value[j] in r.value;
      }
    }
  }

  /** `Validate`: owner, repository and file path, in that order, and a constraint that compiles if given. */
  function Validate<V>(g: GithubTaggedImagesFile, newConstraint: string -> Result<V -> bool>): (r: Outcome)
    ensures r.Pass? <==>
      && g.owner != "" && g.repository != "" && g.imagesFilePath != ""
      && (g.versionConstraint != "" ==> newConstraint(g.versionConstraint).Ok?)
    ensures g.owner == "" ==> r == Fail("must specify Owner")
    ensures g.owner != "" && g.repository == "" ==> r == Fail("must specify Repository")
    ensures g.owner != "" && g.repository != "" && g.imagesFilePath == "" ==> r == Fail("must specify ImagesFilePath")
    ensures g.owner != "" && g.repository != "" && g.imagesFilePath != "" && r.Fail? ==>
      r.error == "invalid VersionConstraint " + Quote(g.versionConstraint) + ": " + newConstraint(g.versionConstraint).error
  {
    if g.owner == "" then Fail("must specify Owner")
    else if g.repository == "" then Fail("must specify Repository")
    else if g.imagesFilePath == "" then Fail("must specify ImagesFilePath")
    else if g.versionConstraint != "" && newConstraint(g.versionConstraint).Err? then
      Fail("invalid VersionConstraint " + Quote(g.versionConstraint) + ": " + newConstraint(g.versionConstraint).error)
    else Pass
  }
}
