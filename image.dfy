/**
 * The `Image` twin of the artifact entity (tools/internal/config/image.go). Its fields,
 * naming rules, regsync expansion and ordering are those of `Artifacts.Artifact`, which
 * models them; only the error text of `setDefaults` and `DeepCopy` differ, and those two
 * are modelled here over the same `ArtifactFields` snapshot.
 */
module Images {
  import opened Wrappers
  import opened Text
  import opened Dynamic
  import opened Repositories
  import opened Artifacts

  /** `setDefaults` of an image: the artifact rules, with "source image" in the split error. */
  function ImageDefaults(source: string, doNotMirror: Dyn): (r: Result<(string, Exclusion)>)
    ensures r.Ok? <==> Defaults(source, doNotMirror).Ok?
    ensures r.Ok? ==> r == Defaults(source, doNotMirror)
    ensures '/' !in source ==>
      r == Err("source image split into " + NatToString(|Split(source, '/')|) + " parts (>=2 parts expected)")
    ensures '/' in source && r.Err? ==> r == Defaults(source, doNotMirror)
  {
    var parts := Split(source, '/');
    DefaultTargetNameDefined(source);
    SplitSeveral(source, '/');
    if |parts| < 2 then
      Err("source image split into " + NatToString(|parts|) + " parts (>=2 parts expected)")
    else
      Defaults(source, doNotMirror)
  }

  /** `Image.DeepCopy` as written: every field is copied except TargetRepositories, left empty. */
  function DeepCopyAsWritten(v: ArtifactFields): (c: ArtifactFields)
    ensures c.targetRepositories == []
    ensures c.(targetRepositories := v.targetRepositories) == v
    ensures c == v <==> v.targetRepositories == []
  {
    v.(targetRepositories := [])
  }

  /**
   * The copy of an image restricted to one repository is not a copy: the original goes
   * only to "docker.io/rancher", the copy goes to every default target instead.
   */
  lemma DeepCopyDropsTargetRepositories()
    ensures var v := ArtifactFields(DNil, "test-org/test-image", "mirrored-test-org-test-image", false, {},
                                    "", ["v1.0.0"], ["docker.io/rancher"]);
      var elsewhere := Repository("registry.example.com/mirror", true, "", "registry.example.com", false, 0, "");
      && DeepCopyAsWritten(v) != v
      && !Targets(v, elsewhere)
      && Targets(DeepCopyAsWritten(v), elsewhere)
  {
    var v := ArtifactFields(DNil, "test-org/test-image", "mirrored-test-org-test-image", false, {},
                            "", ["v1.0.0"], ["docker.io/rancher"]);
    var elsewhere := Repository("registry.example.com/mirror", true, "", "registry.example.com", false, 0, "");
    assert "registry.example.com/mirror" != "docker.io/rancher";
    assert !HasPrefix(elsewhere.baseUrl + "/" + TargetName(v), DockerIoPrefix) by {
      assert (elsewhere.baseUrl + "/" + TargetName(v))[0] == 'r';
    }
    assert TrimPrefix(v.sourceArtifact, DockerIoPrefix) != TrimPrefix(elsewhere.baseUrl + "/" + TargetName(v), DockerIoPrefix) by {
      assert !HasPrefix(v.sourceArtifact, DockerIoPrefix) by {
        assert v.sourceArtifact[0] == 't';
      }
      assert |v.sourceArtifact| != |elsewhere.baseUrl + "/" + TargetName(v)|;
    }
  }

  /** `Image.DeepCopy` as written, on a live image. */
  method DeepCopyImage(image: Artifact) returns (c: Artifact)
    ensures fresh(c)
    ensures c.View() == DeepCopyAsWritten(image.View())
  {
    c := new Artifact.Literal(image.sourceArtifact, image.tags, image.doNotMirror, []);
    c.defaultTargetArtifactName := image.defaultTargetArtifactName;
    c.specifiedTargetArtifactName := image.specifiedTargetArtifactName;
    c.excludeAllTags := image.excludeAllTags;
    c.excludedTags := image.excludedTags;
  }
}
