/**
 * The first-generation regsync generator (main.go at the repository root): a plain image
 * list and a repository list become regsync logins, one per repository, and sync
 * directives, image by image and, within an image, repository by repository.
 */
module RootMain {
  import opened Wrappers
  import opened Dynamic
  import opened Regsync
  import opened Artifacts
  import LegacyConfig

  /** An image as the first-generation configuration file lists it; no default name is stored. */
  datatype PlainImage = PlainImage(sourceImage: string, targetImageName: string, tags: seq<string>)

  /** A target repository: the login comes from environment variables named by `envVarPrefix`. */
  datatype PlainRepository = PlainRepository(baseUrl: string, envVarPrefix: string, target: bool)

  /** The first-generation regsync login: registry, user and password only. */
  datatype PlainCred = PlainCred(registry: string, user: string, pass: string)

  datatype PlainRegsyncConfig = PlainRegsyncConfig(creds: seq<PlainCred>, sync: seq<ConfigSync>)

  // ---------------------------------------------------------------------------
  // getRegsyncEntries

  /** The target name: the one given, or "mirrored-" + org + "-" + name derived from the source. */
  function ImageTargetName(image: PlainImage): (r: Result<string>)
  {
    if image.targetImageName != "" then Ok(image.targetImageName) else LegacyConfig.MirroredName(image.sourceImage)
  }

  /** The directives `getRegsyncEntries` returns for one image and one repository. */
  function Entries(repo: PlainRepository, image: PlainImage): Result<seq<ConfigSync>>
  {
    var name :- ImageTargetName(image);
    Ok(Directives(image.sourceImage, repo.baseUrl + "/" + name, image.tags))
  }

  /**
   * `getRegsyncEntries`: one directive per tag, in tag order, copying source:tag to
   * baseUrl/targetName:tag. It fails only when no target name is given and the source
   * reference has no "/" to derive one from.
   */
  method GetRegsyncEntries(repo: PlainRepository, image: PlainImage) returns (r: Result<seq<ConfigSync>>)
    ensures r == Entries(repo, image)
    ensures r.Ok? <==> image.targetImageName != "" || '/' in image.sourceImage
    ensures r.Err? ==> r.error == LegacyConfig.OneSegmentError
    ensures r.Ok? ==> |r.value| == |image.tags| && forall i :: 0 <= i < |image.tags| ==>
      r.value[i] == ConfigSync(image.sourceImage + ":" + image.tags[i],
                               repo.baseUrl + "/" + ImageTargetName(image).value + ":" + image.tags[i],
                               ImageType)
  {
    LegacyConfig.MirroredNameDefined(image.sourceImage);
    var targetImageName := image.targetImageName;
    if targetImageName == "" {
      var name := LegacyConfig.MirroredName(image.sourceImage);
      if name.Err? {
        return Err(name.error);
      }
      targetImageName := name.value;
    }
    var entries: seq<ConfigSync> := [];
    var i := 0;
    while i < |image.tags|
      invariant 0 <= i <= |image.tags|
      invariant entries == Directives(image.sourceImage, repo.baseUrl + "/" + targetImageName, image.tags[..i])
    {
      var tag := image.tags[i];
      entries := entries + [ConfigSync(image.sourceImage + ":" + tag, repo.baseUrl + "/" + targetImageName + ":" + tag, ImageType)];
      i := i + 1;
    }
    assert image.tags[..i] == image.tags;
    r := Ok(entries);
  }

  /** With a given target name, or a source "org/name", the directives use the expected name. */
  lemma EntriesName(repo: PlainRepository, image: PlainImage, org: string, name: string)
    requires image.targetImageName == "" && image.sourceImage == org + "/" + name
    requires '/' !in org && '/' !in name
    ensures Entries(repo, image) ==
      Ok(Directives(image.sourceImage, repo.baseUrl + "/mirrored-" + org + "-" + name, image.tags))
  {
    LegacyConfig.MirroredNameOf([], org, name);
    assert repo.baseUrl + "/" + ("mirrored-" + org + "-" + name) == repo.baseUrl + "/mirrored-" + org + "-" + name;
  }

  // ---------------------------------------------------------------------------
  // generateRegsyncYaml

  /** A regsync template that reads an environment variable. */
  function EnvTemplate(prefix: string, suffix: string): string
  {
    "{{ env \"" + prefix + "_" + suffix + "\" }}"
  }

  function CredFor(repo: PlainRepository): PlainCred
  {
    PlainCred(EnvTemplate(repo.envVarPrefix, "ENDPOINT"), EnvTemplate(repo.envVarPrefix, "USERNAME"),
              EnvTemplate(repo.envVarPrefix, "PASSWORD"))
  }

  function ConvertError(image: PlainImage, e: string): string
  {
    "failed to convert Image with SourceImage " + Quote(image.sourceImage) + ": " + e
  }

  /** The inner loop over the repositories for one image: only target repositories yield directives. */
  function ImageSyncs(image: PlainImage, repos: seq<PlainRepository>): Result<seq<ConfigSync>>
  {
    if repos == [] then Ok([])
    else
      var prev :- ImageSyncs(image, repos[..|repos| - 1]);
      var repo := repos[|repos| - 1];
      if !repo.target then Ok(prev)
      else
        var entries := Entries(repo, image);
        if entries.Err? then Err(ConvertError(image, entries.error)) else Ok(prev + entries.value)
  }

  /** The outer loop: the images in list order, each with its target repositories. */
  function AllSyncs(images: seq<PlainImage>, repos: seq<PlainRepository>): Result<seq<ConfigSync>>
  {
    if images == [] then Ok([])
    else
      var prev :- AllSyncs(images[..|images| - 1], repos);
      var here :- ImageSyncs(images[|images| - 1], repos);
      Ok(prev + here)
  }

  predicate HasTarget(repos: seq<PlainRepository>)
  {
    exists j :: 0 <= j < |repos| && repos[j].target
  }

  /**
   * An image fails exactly when it has no target name to use and there is a target
   * repository to ask for one: without target repositories a bad source reference goes
   * unnoticed.
   */
  lemma {:induction false} ImageSyncsFails(image: PlainImage, repos: seq<PlainRepository>)
    ensures ImageSyncs(image, repos).Err? <==> ImageTargetName(image).Err? && HasTarget(repos)
    ensures ImageSyncs(image, repos).Err? ==>
      ImageSyncs(image, repos).error == ConvertError(image, ImageTargetName(image).error)
  {
    if repos != [] {
      var init := repos[..|repos| - 1];
      ImageSyncsFails(image, init);
      if HasTarget(init) {
        var j :| 0 <= j < |init| && init[j].target;
        assert repos[j].target;
      }
      if HasTarget(repos) && !repos[|repos| - 1].target {
        var j :| 0 <= j < |repos| && repos[j].target;
        assert init[j].target;
      }
    }
  }

  /** The whole conversion fails exactly when some image fails, with the first failing image's error. */
  lemma {:induction false} AllSyncsFails(images: seq<PlainImage>, repos: seq<PlainRepository>)
    ensures AllSyncs(images, repos).Err? <==> exists i :: 0 <= i < |images| && ImageSyncs(images[i], repos).Err?
    ensures AllSyncs(images, repos).Err? ==>
      exists i :: && 0 <= i < |images|
                  && (forall j | 0 <= j < i :: ImageSyncs(images[j], repos).Ok?)
                  && AllSyncs(images, repos) == ImageSyncs(images[i], repos)
  {
    if images != [] {
      var init := images[..|images| - 1];
      AllSyncsFails(init, repos);
      assert forall i | 0 <= i < |init| :: init[i] == images[i];
    }
  }

  /**
   * A successful conversion of one image holds exactly its directives for each target
   * repository; non-target repositories contribute nothing.
   */
  lemma {:induction false} ImageSyncsMember(image: PlainImage, repos: seq<PlainRepository>, e: ConfigSync)
    requires ImageSyncs(image, repos).Ok?
    ensures e in ImageSyncs(image, repos).value <==>
      exists j :: 0 <= j < |repos| && repos[j].target && Entries(repos[j], image).Ok? && e in Entries(repos[j], image).value
  {
    if repos != [] {
      var init := repos[..|repos| - 1];
      ImageSyncsMember(image, init, e);
      assert forall j | 0 <= j < |init| :: init[j] == repos[j];
    }
  }

  /** A successful conversion holds exactly the directives of every image. */
  lemma {:induction false} AllSyncsMember(images: seq<PlainImage>, repos: seq<PlainRepository>, e: ConfigSync)
    requires AllSyncs(images, repos).Ok?
    ensures e in AllSyncs(images, repos).value <==>
      exists i :: 0 <= i < |images| && ImageSyncs(images[i], repos).Ok? && e in ImageSyncs(images[i], repos).value
  {
    if images != [] {
      var init := images[..|images| - 1];
      AllSyncsMember(init, repos, e);
      assert forall i | 0 <= i < |init| :: init[i] == images[i];
    }
  }

  lemma ImageSyncsPrefix(image: PlainImage, repos: seq<PlainRepository>, j: int)
    requires 0 <= j < |repos|
    ensures ImageSyncs(image, repos[..j + 1]) ==
      (var prev := ImageSyncs(image, repos[..j]);
       if prev.Err? || !repos[j].target then prev
       else var entries := Entries(repos[j], image);
            if entries.Err? then Err(ConvertError(image, entries.error)) else Ok(prev.value + entries.value))
  {
    assert repos[..j + 1][..j] == repos[..j];
  }

  /** Once the repositories up to `j` fail, the later ones change nothing. */
  lemma {:induction false} ImageSyncsErrPersists(image: PlainImage, repos: seq<PlainRepository>, j: int)
    requires 0 <= j <= |repos| && ImageSyncs(image, repos[..j]).Err?
    ensures ImageSyncs(image, repos) == ImageSyncs(image, repos[..j])
    decreases |repos| - j
  {
    if j < |repos| {
      ImageSyncsPrefix(image, repos, j);
      ImageSyncsErrPersists(image, repos, j + 1);
    } else {
      assert repos[..j] == repos;
    }
  }

  /** The inner loop of `generateRegsyncYaml`: the directives of one image, appended to `sync`. */
  method AppendImageSyncs(image: PlainImage, repos: seq<PlainRepository>, sync: seq<ConfigSync>)
    returns (r: Result<seq<ConfigSync>>)
    ensures ImageSyncs(image, repos).Err? ==> r == ImageSyncs(image, repos)
    ensures ImageSyncs(image, repos).Ok? ==> r == Ok(sync + ImageSyncs(image, repos).value)
  {
    ghost var done: seq<ConfigSync> := [];
    var acc := sync;
    var j := 0;
    while j < |repos|
      invariant 0 <= j <= |repos|
      invariant ImageSyncs(image, repos[..j]) == Ok(done)
      invariant acc == sync + done
    {
      ImageSyncsPrefix(image, repos, j);
      var repo := repos[j];
      if repo.target {
        var entries := GetRegsyncEntries(repo, image);
        if entries.Err? {
          ImageSyncsErrPersists(image, repos, j + 1);
          return Err(ConvertError(image, entries.error));
        }
        acc := acc + entries.value;
        done := done + entries.value;
      }
      j := j + 1;
    }
    assert repos[..j] == repos;
    r := Ok(acc);
  }

  lemma AllSyncsPrefix(images: seq<PlainImage>, repos: seq<PlainRepository>, i: int)
    requires 0 <= i < |images|
    ensures AllSyncs(images[..i + 1], repos) ==
      (var prev := AllSyncs(images[..i], repos);
       if prev.Err? then prev
       else var here := ImageSyncs(images[i], repos);
            if here.Err? then here else Ok(prev.value + here.value))
  {
    assert images[..i + 1][..i] == images[..i];
  }

  /** Once the images up to `i` fail, the later ones change nothing. */
  lemma {:induction false} AllSyncsErrPersists(images: seq<PlainImage>, repos: seq<PlainRepository>, i: int)
    requires 0 <= i <= |images| && AllSyncs(images[..i], repos).Err?
    ensures AllSyncs(images, repos) == AllSyncs(images[..i], repos)
    decreases |images| - i
  {
    if i < |images| {
      AllSyncsPrefix(images, repos, i);
      AllSyncsErrPersists(images, repos, i + 1);
    } else {
      assert images[..i] == images;
    }
  }

  /**
   * `generateRegsyncYaml` after parsing: one login per repository, in repository order and
   * without deduplication, then the directives of every image for every target repository.
   * The first image that cannot be converted aborts the whole generation.
   */
  method GenerateRegsyncYaml(images: seq<PlainImage>, repos: seq<PlainRepository>) returns (r: Result<PlainRegsyncConfig>)
    ensures r.Ok? <==> AllSyncs(images, repos).Ok?
    ensures r.Err? ==> r.error == AllSyncs(images, repos).error
    ensures r.Ok? ==>
      && |r.value.creds| == |repos|
      && (forall j :: 0 <= j < |repos| ==> r.value.creds[j] == CredFor(repos[j]))
      && r.value.sync == AllSyncs(images, repos).value
  {
    var creds: seq<PlainCred> := [];
    var j := 0;
    while j < |repos|
      invariant 0 <= j <= |repos|
      invariant |creds| == j
      invariant forall k :: 0 <= k < j ==> creds[k] == CredFor(repos[k])
    {
      var p := repos[j].envVarPrefix;
      creds := creds + [PlainCred(EnvTemplate(p, "ENDPOINT"), EnvTemplate(p, "USERNAME"), EnvTemplate(p, "PASSWORD"))];
      j := j + 1;
    }
    var sync: seq<ConfigSync> := [];
    var i := 0;
    while i < |images|
      invariant 0 <= i <= |images|
      invariant AllSyncs(images[..i], repos) == Ok(sync)
    {
      AllSyncsPrefix(images, repos, i);
      var next := AppendImageSyncs(images[i], repos, sync);
      if next.Err? {
        AllSyncsErrPersists(images, repos, i + 1);
        return Err(next.error);
      }
      sync := next.value;
      i := i + 1;
    }
    assert images[..i] == images;
    r := Ok(PlainRegsyncConfig(creds, sync));
  }
}
