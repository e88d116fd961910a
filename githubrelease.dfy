/**
 * The GithubRelease autoupdate strategy (tools/internal/autoupdate/githubrelease.go): the
 * tags of a GitHub repository's releases, turned into versions by an optional regular
 * expression and semantic-version constraint, offered under every configured image.
 *
 * The GitHub API is a parameter: `list(p)` is the page of releases `ListReleases` returns
 * for page number `p` (0 being the first), `latest` what `GetLatestRelease` returns.
 * `find` is the compiled regular expression's `FindStringSubmatch`, `parse` is
 * `semver.NewVersion` and a compiled constraint is its `Check`.
 */
module GithubReleases {
  import opened Wrappers
  import opened Text
  import opened Dynamic
  import opened Artifacts
  import opened Strategies

  datatype Release = Release(tagName: string, prerelease: bool, draft: bool)

  /** One page of `ListReleases`: its releases and the number of the next page, 0 on the last. */
  datatype Page = Page(releases: seq<Release>, nextPage: nat)

  // ---------------------------------------------------------------------------
  // From a tag to a version

  /**
   * `processTagToVersion`: the tag, or the first group (else the whole match) of the version
   * regular expression, which when it does not match drops the tag as ""; with a constraint,
   * a version that does not parse is an error and one outside the constraint is dropped.
   * The version kept is the text, not the parsed version.
   */
  function TagToVersion<V>(tag: string, find: Option<string -> seq<string>>, check: Option<V -> bool>,
                           parse: string -> Result<V>): (r: Result<string>)
    ensures find.None? && check.None? ==> r == Ok(tag)
    ensures find.Some? && find.value(tag) == [] ==> r == Ok("")
    ensures r.Err? ==>
      && check.Some?
      && var candidate := if find.None? then tag else Matched(find.value(tag));
      && parse(candidate).Err?
      && r.error == "error parsing release version: " + parse(candidate).error
    ensures r.Ok? && r.value != "" ==>
      && (find.None? ==> r.value == tag)
      && (find.Some? ==> |find.value(tag)| > 0 && r.value == Matched(find.value(tag)))
      && (check.Some? ==> parse(r.value).Ok? && check.value(parse(r.value).value))
  {
    if find.Some? && find.value(tag) == [] then Ok("")
    else
      var version := if find.Some? then Matched(find.value(tag)) else tag;
      if check.None? then Ok(version)
      else
        match parse(version)
        case Err(e) => Err("error parsing release version: " + e)
        case Ok(v) => if !check.value(v) then Ok("") else Ok(version)
  }

  /** The version in a regular-expression match: its first group, or the whole match without one. */
  function Matched(matches: seq<string>): string
    requires |matches| > 0
  {
    if |matches| == 1 then matches[0] else matches[1]
  }

  /** A release `getVersionsFromAllReleases` considers: neither a prerelease nor a draft. */
  predicate Published(release: Release)
  {
    !release.prerelease && !release.draft
  }

  /**
   * The versions of one page's releases in order: drafts, prereleases and dropped tags are
   * skipped, and the first tag that fails aborts.
   */
  function PageVersions<V>(releases: seq<Release>, find: Option<string -> seq<string>>, check: Option<V -> bool>,
                           parse: string -> Result<V>): (r: Result<seq<string>>)
    ensures r.Ok? <==> forall i :: 0 <= i < |releases| && Published(releases[i]) ==>
      TagToVersion(releases[i].tagName, find, check, parse).Ok?
    ensures r.Err? ==> exists i :: && 0 <= i < |releases|
                                  && Published(releases[i])
                                  && TagToVersion(releases[i].tagName, find, check, parse).Err?
                                  && r.error == "failed to process tag into version: " +
                                                TagToVersion(releases[i].tagName, find, check, parse).error
    ensures r.Ok? ==> forall i :: 0 <= i < |r.value| ==> r.value[i] != ""
    ensures r.Ok? ==> forall v :: v in r.value <==>
      && v != ""
      && exists i :: 0 <= i < |releases| && Published(releases[i]) &&
           TagToVersion(releases[i].tagName, find, check, parse) == Ok(v)
  {
    if releases == [] then Ok([])
    else
      var init := releases[..|releases| - 1];
      var last := releases[|releases| - 1];
      assert forall i :: 0 <= i < |init| ==> init[i] == releases[i];
      var head :- PageVersions(init, find, check, parse);
      if !Published(last) then Ok(head)
      else
        var version := TagToVersion(last.tagName, find, check, parse);
        if version.Err? then Err("failed to process tag into version: " + version.error)
        else if version.value == "" then Ok(head)
        else Ok(head + [version.value])
  }

  /** Following the next-page numbers from `page` reaches the last page (or an error) within `n` requests. */
  predicate ChainEnds(list: nat -> Result<Page>, page: nat, n: nat)
    decreases n
  {
    n > 0 && (list(page).Err? || list(page).value.nextPage == 0 || ChainEnds(list, list(page).value.nextPage, n - 1))
  }

  /** `getVersionsFromAllReleases` from page `page` on: the versions of every page, in page order. */
  function AllVersions<V>(list: nat -> Result<Page>, page: nat, n: nat, find: Option<string -> seq<string>>,
                          check: Option<V -> bool>, parse: string -> Result<V>): (r: Result<seq<string>>)
    requires ChainEnds(list, page, n)
    ensures r.Ok? ==> forall i :: 0 <= i < |r.value| ==> r.value[i] != ""
    decreases n
  {
    match list(page)
    case Err(e) => Err("failed to get releases: " + e)
    case Ok(p) =>
      var versions :- PageVersions(p.releases, find, check, parse);
      if p.nextPage == 0 then Ok(versions)
      else
        var rest :- AllVersions(list, p.nextPage, n - 1, find, check, parse);
        Ok(versions + rest)
  }

  /** One page of `AllVersions`: a failed request, a failed page, the last page, or a page and the rest. */
  lemma AllVersionsUnfold<V>(list: nat -> Result<Page>, page: nat, n: nat, find: Option<string -> seq<string>>,
                             check: Option<V -> bool>, parse: string -> Result<V>)
    requires ChainEnds(list, page, n)
    ensures list(page).Err? ==> AllVersions(list, page, n, find, check, parse) == Err("failed to get releases: " + list(page).error)
    ensures list(page).Ok? ==>
      var versions := PageVersions(list(page).value.releases, find, check, parse);
      && (versions.Err? ==> AllVersions(list, page, n, find, check, parse) == Err(versions.error))
      && (versions.Ok? && list(page).value.nextPage == 0 ==> AllVersions(list, page, n, find, check, parse) == versions)
      && (versions.Ok? && list(page).value.nextPage != 0 ==>
            && ChainEnds(list, list(page).value.nextPage, n - 1)
            && AllVersions(list, page, n, find, check, parse) ==
               After(versions.value, AllVersions(list, list(page).value.nextPage, n - 1, find, check, parse)))
  {
  }

  /** A listing of versions that follows `versions`, or the error that ended it. */
  function After(versions: seq<string>, rest: Result<seq<string>>): Result<seq<string>>
  {
    if rest.Ok? then Ok(versions + rest.value) else rest
  }

  /** The release tags `GetUpdateImages` offers: the latest release's version, or every release's. */
  function ReleaseTags<V>(latestOnly: bool, latest: Result<Release>, list: nat -> Result<Page>, bound: nat,
                          find: Option<string -> seq<string>>, check: Option<V -> bool>, parse: string -> Result<V>)
    : (r: Result<seq<string>>)
    requires !latestOnly ==> ChainEnds(list, 0, bound)
    ensures latestOnly && r.Ok? ==> |r.value| == 1
    ensures latestOnly && latest.Err? ==>
      r == Err("failed to get tag from latest github release: failed to get latest release: " + latest.error)
    ensures !latestOnly && r.Ok? ==> forall i :: 0 <= i < |r.value| ==> r.value[i] != ""
  {
    if latestOnly then
      match latest
      case Err(e) => Err("failed to get tag from latest github release: failed to get latest release: " + e)
      case Ok(release) =>
        match TagToVersion(release.tagName, find, check, parse)
        case Err(e) => Err("failed to get tag from latest github release: failed to process tag into version: " + e)
        case Ok(version) => Ok([version])
    else
      match AllVersions(list, 0, bound, find, check, parse)
      case Err(e) => Err("failed to get tags from github releases: " + e)
      case Ok(versions) => Ok(versions)
  }

  /**
   * A tag the version expression does not match is skipped among all releases, but the
   * latest release's unmatched tag is offered as the empty tag.
   */
  lemma UnmatchedLatestTag<V>(tag: string, find: string -> seq<string>, list: nat -> Result<Page>,
                              check: Option<V -> bool>, parse: string -> Result<V>)
    requires find(tag) == []
    ensures ReleaseTags(true, Ok(Release(tag, false, false)), list, 0, Some(find), check, parse) == Ok([""])
    ensures PageVersions([Release(tag, false, false)], Some(find), check, parse) == Ok([])
  {
    var r := [Release(tag, false, false)];
    assert r[..0] == [];
  }

  /** The `%q` of an `AutoupdateImageRef` and the `%v` of a tag list in the fan-out's error. */
  function ConstructError(ref: ImageRef, tags: seq<string>, e: string): string
  {
    "failed to construct image from source image {" + Quote(ref.sourceImage) + " " + Quote(ref.targetImageName) +
    "} and tags [" + Join(tags, ' ') + "]: " + e
  }

  // ---------------------------------------------------------------------------
  // The strategy

  /** Whether `Validate` reaches the constraint and regular-expression checks. */
  predicate RequiredFieldsSet(owner: string, repository: string, images: Option<seq<ImageRef>>,
                              latestOnly: bool, versionConstraint: string)
  {
    owner != "" && repository != "" && images.Some? && |images.value| > 0 && !(latestOnly && versionConstraint != "")
  }

  /**
   * `Validate`'s verdict: owner, repository and a non-empty (and not absent) image list, no
   * constraint with LatestOnly, then a constraint and a regular expression that compile.
   */
  function ValidateOutcome<V>(owner: string, repository: string, images: Option<seq<ImageRef>>, latestOnly: bool,
                              versionConstraint: string, versionRegex: string,
                              newConstraint: string -> Result<V -> bool>,
                              compile: string -> Result<string -> seq<string>>): (r: Outcome)
    ensures r.Pass? <==>
      && RequiredFieldsSet(owner, repository, images, latestOnly, versionConstraint)
      && (versionConstraint != "" ==> newConstraint(versionConstraint).Ok?)
      && (versionRegex != "" ==> compile(versionRegex).Ok?)
    ensures owner == "" ==> r == Fail("must specify Owner")
    ensures owner != "" && repository == "" ==> r == Fail("must specify Repository")
    ensures owner != "" && repository != "" && images.None? ==> r == Fail("must specify Images")
    ensures owner != "" && repository != "" && images == Some([]) ==> r == Fail("must specify at least one element for Images")
    ensures owner != "" && repository != "" && images.Some? && images.value != [] && latestOnly && versionConstraint != "" ==>
      r == Fail("must not specify VersionConstraint when LatestOnly=true")
  {
    if owner == "" then Fail("must specify Owner")
    else if repository == "" then Fail("must specify Repository")
    else if images.None? then Fail("must specify Images")
    else if |images.value| == 0 then Fail("must specify at least one element for Images")
    else if latestOnly && versionConstraint != "" then Fail("must not specify VersionConstraint when LatestOnly=true")
    else if versionConstraint != "" && newConstraint(versionConstraint).Err? then
      Fail("invalid VersionConstraint: " + newConstraint(versionConstraint).error)
    else if versionRegex != "" && compile(versionRegex).Err? then
      Fail("invalid VersionRegex: " + compile(versionRegex).error)
    else Pass
  }

  /** A `GithubRelease` entry; `Validate` stores the compiled constraint and regular expression in it. */
  class GithubRelease<V> {
    var owner: string
    var repository: string
    var images: Option<seq<ImageRef>>
    var latestOnly: bool
    var versionConstraint: string
    var compiledVersionConstraint: Option<V -> bool>
    var versionRegex: string
    var compiledVersionRegex: Option<string -> seq<string>>

    constructor (owner: string, repository: string, images: Option<seq<ImageRef>>, latestOnly: bool,
                 versionConstraint: string, versionRegex: string)
      ensures this.owner == owner && this.repository == repository && this.images == images
      ensures this.latestOnly == latestOnly
      ensures this.versionConstraint == versionConstraint && this.versionRegex == versionRegex
      ensures compiledVersionConstraint.None? && compiledVersionRegex.None?
    {
      this.owner := owner;
      this.repository := repository;
      this.images := images;
      this.latestOnly := latestOnly;
      this.versionConstraint := versionConstraint;
      this.versionRegex := versionRegex;
      compiledVersionConstraint := None;
      compiledVersionRegex := None;
    }

    /** The configured constraint and regular expression are compiled, as after a passing `Validate`. */
    predicate Compiled()
      reads this
    {
      && (versionConstraint != "" ==> compiledVersionConstraint.Some?)
      && (versionRegex != "" ==> compiledVersionRegex.Some?)
    }

    /** The compiled regular expression in use: none when VersionRegex is empty. */
    function Find(): Option<string -> seq<string>>
      reads this
    {
      if versionRegex != "" then compiledVersionRegex else None
    }

    /** The compiled constraint in use: none when VersionConstraint is empty. */
    function Check(): Option<V -> bool>
      reads this
    {
      if versionConstraint != "" then compiledVersionConstraint else None
    }

    /**
     * `Validate`: the verdict, and each compiled value stored once its check is reached and
     * passes (a constraint stays stored when the regular expression then fails).
     */
    method Validate(newConstraint: string -> Result<V -> bool>, compile: string -> Result<string -> seq<string>>)
      returns (r: Outcome)
      modifies this
      ensures r == ValidateOutcome(owner, repository, images, latestOnly, versionConstraint, versionRegex,
                                   newConstraint, compile)
      ensures r.Pass? ==> Compiled()
      ensures owner == old(owner) && repository == old(repository) && images == old(images)
      ensures latestOnly == old(latestOnly) && versionConstraint == old(versionConstraint)
      ensures versionRegex == old(versionRegex)
      ensures compiledVersionConstraint ==
        if RequiredFieldsSet(owner, repository, images, latestOnly, versionConstraint)
           && versionConstraint != "" && newConstraint(versionConstraint).Ok?
        then Some(newConstraint(versionConstraint).value) else old(compiledVersionConstraint)
      ensures compiledVersionRegex ==
        if RequiredFieldsSet(owner, repository, images, latestOnly, versionConstraint)
           && (versionConstraint != "" ==> newConstraint(versionConstraint).Ok?)
           && versionRegex != "" && compile(versionRegex).Ok?
        then Some(compile(versionRegex).value) else old(compiledVersionRegex)
    {
      if owner == "" {
        return Fail("must specify Owner");
      }
      if repository == "" {
        return Fail("must specify Repository");
      }
      if images.None? {
        return Fail("must specify Images");
      } else if |images.value| == 0 {
        return Fail("must specify at least one element for Images");
      }
      if latestOnly && versionConstraint != "" {
        return Fail("must not specify VersionConstraint when LatestOnly=true");
      }
      if versionConstraint != "" {
        var c := newConstraint(versionConstraint);
        if c.Err? {
          return Fail("invalid VersionConstraint: " + c.error);
        }
        compiledVersionConstraint := Some(c.value);
      }
      if versionRegex != "" {
        var x := compile(versionRegex);
        if x.Err? {
          return Fail("invalid VersionRegex: " + x.error);
        }
        compiledVersionRegex := Some(x.value);
      }
      return Pass;
    }

    /** The loop over one page's releases. */
    method VersionsOfPage(releases: seq<Release>, parse: string -> Result<V>) returns (r: Result<seq<string>>)
      ensures r == PageVersions(releases, Find(), Check(), parse)
    {
      var versions: seq<string> := [];
      var i := 0;
      while i < |releases|
        invariant 0 <= i <= |releases|
        invariant PageVersions(releases[..i], Find(), Check(), parse) == Ok(versions)
      {
        assert releases[..i + 1][..i] == releases[..i];
        var release := releases[i];
        if Published(release) {
          var version := TagToVersion(release.tagName, Find(), Check(), parse);
          if version.Err? {
            PageVersionsAbort(releases, i, Find(), Check(), parse);
            assert releases[i] == release;
            return Err("failed to process tag into version: " + version.error);
          }
          if version.value != "" {
            versions := versions + [version.value];
          }
        }
        i := i + 1;
      }
      assert releases[..i] == releases;
      r := Ok(versions);
    }

    /** `getVersionsFromAllReleases`: the page loop, which ends once a page reports no next page. */
    method VersionsFromAllReleases(list: nat -> Result<Page>, ghost bound: nat, parse: string -> Result<V>)
      returns (r: Result<seq<string>>)
      requires ChainEnds(list, 0, bound)
      ensures r == AllVersions(list, 0, bound, Find(), Check(), parse)
    {
      ghost var find, check := Find(), Check();
      var page := 0;
      ghost var n := bound;
      var versions: seq<string> := [];
      ghost var all := AllVersions(list, 0, bound, find, check, parse);
      if all.Ok? {
        assert [] + all.value == all.value;
      }
      while true
        invariant ChainEnds(list, page, n)
        invariant all == After(versions, AllVersions(list, page, n, find, check, parse))
        decreases n
      {
        AllVersionsUnfold(list, page, n, find, check, parse);
        var releases := list(page);
        if releases.Err? {
          return Err("failed to get releases: " + releases.error);
        }
        var pageVersions := VersionsOfPage(releases.value.releases, parse);
        if pageVersions.Err? {
          return Err(pageVersions.error);
        }
        if releases.value.nextPage == 0 {
          return Ok(versions + pageVersions.value);
        }
        ghost var rest := AllVersions(list, releases.value.nextPage, n - 1, find, check, parse);
        if rest.Ok? {
          assert versions + (pageVersions.value + rest.value) == (versions + pageVersions.value) + rest.value;
        }
        versions := versions + pageVersions.value;
        page := releases.value.nextPage;
        n := n - 1;
      }
    }

    /** The first half of `GetUpdateImages`: the latest release's version, or every release's. */
    method Tags(latest: Result<Release>, list: nat -> Result<Page>, ghost bound: nat, parse: string -> Result<V>)
      returns (r: Result<seq<string>>)
      requires !latestOnly ==> ChainEnds(list, 0, bound)
      ensures r == ReleaseTags(latestOnly, latest, list, bound, Find(), Check(), parse)
    {
      if latestOnly {
        if latest.Err? {
          return Err("failed to get tag from latest github release: failed to get latest release: " + latest.error);
        }
        var version := TagToVersion(latest.value.tagName, Find(), Check(), parse);
        if version.Err? {
          return Err("failed to get tag from latest github release: failed to process tag into version: " + version.error);
        }
        r := Ok([version.value]);
      } else {
        var all := VersionsFromAllReleases(list, bound, parse);
        if all.Err? {
          return Err("failed to get tags from github releases: " + all.error);
        }
        r := Ok(all.value);
      }
    }

    /**
     * `GetUpdateImages`: the release tags, then one image per configured reference with
     * them, under its target name.
     */
    method GetUpdateImages(latest: Result<Release>, list: nat -> Result<Page>, ghost bound: nat,
                           parse: string -> Result<V>)
      returns (r: Result<seq<ArtifactFields>>)
      requires !latestOnly ==> ChainEnds(list, 0, bound)
      ensures var tags := ReleaseTags(latestOnly, latest, list, bound, Find(), Check(), parse);
        var refs := if images.Some? then images.value else [];
        && (tags.Err? ==> r == Err(tags.error))
        && (r.Ok? ==>
              && tags.Ok?
              && |r.value| == |refs|
              && forall i :: 0 <= i < |refs| ==>
                   Ok(r.value[i]) == NewImage(refs[i].sourceImage, tags.value, refs[i].targetImageName))
        && (r.Err? && tags.Ok? ==>
              exists k :: && 0 <= k < |refs|
                          && '/' !in refs[k].sourceImage
                          && r.error == ConstructError(refs[k], tags.value,
                                          NewImage(refs[k].sourceImage, tags.value, refs[k].targetImageName).error))
    {
      var tags := Tags(latest, list, bound, parse);
      if tags.Err? {
        return Err(tags.error);
      }
      var refs := if images.Some? then images.value else [];
      var t := tags.value;
      r := FanOut(refs, t, (ref, e) => ConstructError(ref, t, e));
    }
  }

  /** The first published release whose tag fails makes the whole page fail with its error. */
  lemma {:induction false} PageVersionsAbort<V>(releases: seq<Release>, i: nat, find: Option<string -> seq<string>>,
                                               check: Option<V -> bool>, parse: string -> Result<V>)
    requires i < |releases| && Published(releases[i])
    requires PageVersions(releases[..i], find, check, parse).Ok?
    requires TagToVersion(releases[i].tagName, find, check, parse).Err?
    ensures PageVersions(releases, find, check, parse) ==
      Err("failed to process tag into version: " + TagToVersion(releases[i].tagName, find, check, parse).error)
    decreases |releases|
  {
    var init := releases[..|releases| - 1];
    if i + 1 == |releases| {
      assert init == releases[..i];
    } else {
      assert init[..i] == releases[..i];
      PageVersionsAbort(init, i, find, check, parse);
    }
  }
}
