/**
 * The GithubLatestRelease autoupdate strategy
 * (tools/internal/autoupdate/githublatestrelease.go): the tag of a GitHub repository's
 * latest release, offered under every configured image. `latest` is what the GitHub API's
 * `GetLatestRelease` returns: the release's tag, or the request's error.
 */
module GithubLatestReleases {
  import opened Wrappers
  import opened Dynamic
  import opened Artifacts
  import opened Strategies

  /** An entry: the repository and the source images (absent is not the same as empty). */
  datatype GithubLatestRelease = GithubLatestRelease(owner: string, repository: string, images: Option<seq<string>>)

  /** `Validate`: an owner, a repository and an image list that is present and not empty, checked in that order. */
  function Validate(glr: GithubLatestRelease): (r: Outcome)
    ensures r.Pass? <==> glr.owner != "" && glr.repository != "" && glr.images.Some? && glr.images.value != []
    ensures glr.owner == "" ==> r == Fail("must specify Owner")
    ensures glr.owner != "" && glr.repository == "" ==> r == Fail("must specify Repository")
    ensures glr.owner != "" && glr.repository != "" && glr.images.None? ==> r == Fail("must specify Images")
    ensures glr.owner != "" && glr.repository != "" && glr.images == Some([]) ==>
      r == Fail("must specify at least one element for Images")
  {
    if glr.owner == "" then Fail("must specify Owner")
    else if glr.repository == "" then Fail("must specify Repository")
    else if glr.images.None? then Fail("must specify Images")
    else if |glr.images.value| == 0 then Fail("must specify at least one element for Images")
    else Pass
  }

  /** Each source image as a reference with no target name of its own. */
  function Refs(images: seq<string>): (refs: seq<ImageRef>)
    ensures |refs| == |images|
    ensures forall i :: 0 <= i < |images| ==> refs[i] == ImageRef(images[i], "")
  {
    seq(|images|, i requires 0 <= i < |images| => ImageRef(images[i], ""))
  }

  function ConstructError(ref: ImageRef, tag: string, e: string): string
  {
    "failed to construct image from source image " + Quote(ref.sourceImage) + " and tag " + Quote(tag) + ": " + e
  }

  /**
   * `GetUpdateImages`: every configured image, under its default target name, with the
   * latest release's tag as its only tag.
   */
  method GetUpdateImages(glr: GithubLatestRelease, latest: Result<string>) returns (r: Result<seq<ArtifactFields>>)
    ensures latest.Err? ==> r == Err("failed to get latest release: " + latest.error)
    ensures r.Ok? ==> latest.Ok?
    ensures var images := if glr.images.Some? then glr.images.value else [];
      && (r.Ok? <==> latest.Ok? && forall i :: 0 <= i < |images| ==> '/' in images[i])
      && (r.Ok? ==> |r.value| == |images| && forall i :: 0 <= i < |images| ==>
            && r.value[i].sourceArtifact == images[i]
            && r.value[i].tags == [latest.value]
            && TargetName(r.value[i]) == r.value[i].defaultTargetArtifactName)
      && (r.Err? && latest.Ok? ==> exists k :: && 0 <= k < |images|
                                               && '/' !in images[k]
                                               && (forall j :: 0 <= j < k ==> '/' in images[j])
                                               && r.error == ConstructError(ImageRef(images[k], ""), latest.value,
                                                                NewImage(images[k], [latest.value], "").error))
  {
    if latest.Err? {
      return Err("failed to get latest release: " + latest.error);
    }
    var tag := latest.value;
    var images := if glr.images.Some? then glr.images.value else [];
    r := FanOut(Refs(images), [tag], (ref, e) => ConstructError(ref, tag, e));
  }
}
