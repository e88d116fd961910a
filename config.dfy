/**
 * The mirror configuration: the artifacts to mirror and the repositories to mirror them
 * to. `Sort` puts it in canonical order, `ToRegsyncConfig` turns it into a regsync
 * configuration, and `SetArtifactDefaults` is the step of parsing that derives every
 * artifact's defaults (the YAML decoding before it is not part of this model).
 */
module Configuration {
  import opened Wrappers
  import opened Ordering
  import opened Sorting
  import opened Dynamic
  import Regsync
  import opened Repositories
  import opened Artifacts

  const UserAgent := "rancher-artifact-mirror"

  // ---------------------------------------------------------------------------
  // Ordering the artifacts

  /** Each artifact paired with its identity, the key `CompareArtifacts` compares. */
  function Keyed(arts: seq<Artifact>): (r: seq<(seq<string>, Artifact)>)
    reads arts`sourceArtifact, arts`specifiedTargetArtifactName, arts`defaultTargetArtifactName
    ensures |r| == |arts|
    ensures forall i :: 0 <= i < |arts| ==> r[i] == (arts[i].Key(), arts[i])
  {
    if arts == [] then []
    else Keyed(arts[..|arts| - 1]) + [(arts[|arts| - 1].Key(), arts[|arts| - 1])]
  }

  function PairKey(p: (seq<string>, Artifact)): seq<string>
  {
    p.0
  }

  /**
   * `slices.SortStableFunc(artifacts, CompareArtifacts)`: a stable sort of the artifacts
   * by identity, done on the artifacts paired with their keys.
   */
  function SortArtifacts(arts: seq<Artifact>): seq<Artifact>
    reads arts`sourceArtifact, arts`specifiedTargetArtifactName, arts`defaultTargetArtifactName
  {
    Seconds(SortBy(Keyed(arts), PairKey))
  }

  /** Sorting keeps the same artifacts, each as often as before. */
  lemma SortArtifactsPermutation(arts: seq<Artifact>)
    ensures multiset(SortArtifacts(arts)) == multiset(arts)
  {
    var keyed := Keyed(arts);
    SecondsPermutation(SortBy(keyed, PairKey), keyed);
    assert Seconds(keyed) == arts;
  }

  /** After sorting, `CompareArtifacts` never puts a later artifact before an earlier one. */
  lemma SortArtifactsSorted(arts: seq<Artifact>)
    ensures var r := SortArtifacts(arts);
      forall i, j :: 0 <= i < j < |r| ==> KeyLe(r[i].Key(), r[j].Key())
  {
    var keyed := Keyed(arts);
    var sorted := SortBy(keyed, PairKey);
    var r := Seconds(sorted);
    SortBySortedBy(keyed, PairKey);
    forall i | 0 <= i < |sorted| ensures PairKey(sorted[i]) == r[i].Key() {
      assert sorted[i] in multiset(keyed);
      var k :| 0 <= k < |keyed| && keyed[k] == sorted[i];
    }
    forall i, j | 0 <= i < j < |r| ensures KeyLe(r[i].Key(), r[j].Key()) {
      assert KeyLe(PairKey(sorted[i]), PairKey(sorted[j]));
    }
  }

  // ---------------------------------------------------------------------------
  // Generating the regsync configuration

  /** The directives of all artifacts, artifact by artifact, in list order. */
  function ConfigSyncs(arts: seq<Artifact>, repos: seq<Repository>): seq<Regsync.ConfigSync>
    reads arts
  {
    if arts == [] then []
    else ConfigSyncs(arts[..|arts| - 1], repos) + ArtifactSyncs(arts[|arts| - 1].View(), repos)
  }

  /** A directive is generated exactly when some artifact generates it. */
  lemma {:induction false} ConfigSyncsMember(arts: seq<Artifact>, repos: seq<Repository>, e: Regsync.ConfigSync)
    ensures e in ConfigSyncs(arts, repos) <==>
      exists i :: 0 <= i < |arts| && e in ArtifactSyncs(arts[i].View(), repos)
  {
    if arts != [] {
      var init := arts[..|arts| - 1];
      var last := ArtifactSyncs(arts[|arts| - 1].View(), repos);
      assert ConfigSyncs(arts, repos) == ConfigSyncs(init, repos) + last;
      ConfigSyncsMember(init, repos, e);
      if e in ConfigSyncs(init, repos) {
        var i :| 0 <= i < |init| && e in ArtifactSyncs(init[i].View(), repos);
        assert arts[i] == init[i];
      } else if e in last {
        assert e in ArtifactSyncs(arts[|arts| - 1].View(), repos);
      }
      if exists i :: 0 <= i < |arts| && e in ArtifactSyncs(arts[i].View(), repos) {
        var i :| 0 <= i < |arts| && e in ArtifactSyncs(arts[i].View(), repos);
        if i < |init| { assert init[i] == arts[i]; }
      }
    }
  }

  /** The distinct logins of a list of repositories. */
  function CredSet(repos: seq<Repository>): (r: set<Regsync.ConfigCred>)
    ensures forall c :: c in r <==> exists x :: x in repos && CredOf(x) == c
  {
    if repos == [] then {}
    else
      var init := repos[..|repos| - 1];
      var r := CredSet(init) + {CredOf(repos[|repos| - 1])};
      assert repos == init + [repos[|repos| - 1]];
      r
  }

  function CredKey(c: Regsync.ConfigCred): seq<string>
  {
    [c.registry]
  }

  /** The keys of a Go map, in whatever order its iteration yields them. */
  method MapKeys(m: set<Regsync.ConfigCred>) returns (keys: seq<Regsync.ConfigCred>)
    ensures Distinct(keys)
    ensures forall c :: c in keys <==> c in m
  {
    keys := [];
    var remaining := m;
    while remaining != {}
      invariant remaining <= m
      invariant Distinct(keys)
      invariant forall c :: c in keys <==> c in m - remaining
      decreases |remaining|
    {
      var c :| c in remaining;
      forall i | 0 <= i < |keys| ensures keys[i] != c {
        assert keys[i] in keys;
      }
      keys := keys + [c];
      remaining := remaining - {c};
    }
  }

  /** The tags each listed artifact holds. */
  ghost function TagsOf(arts: seq<Artifact>): map<Artifact, seq<string>>
    reads arts
  {
    map a | a in arts :: a.tags
  }

  /** One round of `Sort`'s first loop. */
  method SortNext(arts: seq<Artifact>, i: int, ghost original: map<Artifact, seq<string>>)
    requires TagsSortedPrefix(arts, i, TagsOf(arts), original) && i < |arts|
    modifies {arts[i]}`tags
    ensures TagsSortedPrefix(arts, i + 1, TagsOf(arts), original)
  {
    ghost var before := TagsOf(arts);
    var a := arts[i];
    a.Sort();
    assert TagsOf(arts) == before[a := SortStrings(before[a])];
    TagsSortedStep(arts, i, before, original);
  }

  /** `Sort`'s first loop: sorts the tags of each listed artifact in place. */
  method SortEachArtifact(arts: seq<Artifact>)
    modifies arts`tags
    ensures forall a | a in arts :: a.tags == SortStrings(old(a.tags))
  {
    ghost var original := TagsOf(arts);
    var i := 0;
    while i < |arts|
      invariant TagsSortedPrefix(arts, i, TagsOf(arts), original)
      invariant forall a | a in arts :: original[a] == old(a.tags)
    {
      SortNext(arts, i, original);
      i := i + 1;
    }
    assert arts[..i] == arts;
  }

  lemma CredSetPrefix(repos: seq<Repository>, i: int)
    requires 0 <= i < |repos|
    ensures CredSet(repos[..i + 1]) == CredSet(repos[..i]) + {CredOf(repos[i])}
  {
    assert repos[..i + 1][..i] == repos[..i];
  }

  /** `ToRegsyncConfig`'s first loop: the login of each repository goes into a set. */
  method CollectCreds(repositories: seq<Repository>) returns (credsMap: set<Regsync.ConfigCred>)
    ensures credsMap == CredSet(repositories)
  {
    credsMap := {};
    var i := 0;
    while i < |repositories|
      invariant 0 <= i <= |repositories|
      invariant credsMap == CredSet(repositories[..i])
    {
      var targetRepository := repositories[i];
      var credEntry := Regsync.ConfigCred(targetRepository.registry, targetRepository.username,
        targetRepository.password, targetRepository.repoAuth, targetRepository.reqConcurrent);
      CredSetPrefix(repositories, i);
      if credEntry in credsMap {
        i := i + 1;
        continue;
      }
      credsMap := credsMap + {credEntry};
      i := i + 1;
    }
    assert repositories[..i] == repositories;
  }

  /**
   * `ToRegsyncConfig`'s logins: each repository's login goes into a set, whose elements are
   * then stably sorted by registry.
   */
  method RegsyncCreds(repositories: seq<Repository>) returns (creds: seq<Regsync.ConfigCred>)
    ensures Distinct(creds)
    ensures forall c :: c in creds <==> exists r :: r in repositories && CredOf(r) == c
    ensures SortedBy(creds, CredKey)
  {
    var credsMap := CollectCreds(repositories);
    var keys := MapKeys(credsMap);
    creds := SortBy(keys, CredKey);
    SortBySortedBy(keys, CredKey);
    DistinctPermutation(keys, creds);
    forall c ensures c in creds <==> c in keys {
      assert c in creds <==> c in multiset(creds);
    }
  }

  /** `ToRegsyncConfig`'s directives: those of each artifact, appended in artifact order. */
  method RegsyncSyncs(artifacts: seq<Artifact>, repositories: seq<Repository>) returns (sync: seq<Regsync.ConfigSync>)
    ensures sync == ConfigSyncs(artifacts, repositories)
  {
    sync := [];
    var j := 0;
    while j < |artifacts|
      invariant 0 <= j <= |artifacts|
      invariant sync == ConfigSyncs(artifacts[..j], repositories)
    {
      var artifact := artifacts[j];
      assert artifacts[..j + 1][..j] == artifacts[..j];
      var syncEntries := artifact.ToRegsyncArtifacts(repositories);
      sync := sync + syncEntries;
      j := j + 1;
    }
    assert artifacts[..j] == artifacts;
  }

  class Config {
    var artifacts: seq<Artifact>
    var repositories: seq<Repository>

    constructor (artifacts: seq<Artifact>, repositories: seq<Repository>)
      ensures this.artifacts == artifacts && this.repositories == repositories
    {
      this.artifacts := artifacts;
      this.repositories := repositories;
    }

    /**
     * The defaults step of `ParseFromBytes`: sets every artifact's defaults in list order
     * and stops at the first failure, naming that artifact's source reference.
     */
    method SetArtifactDefaults() returns (err: Wrappers.Outcome)
      modifies artifacts`defaultTargetArtifactName, artifacts`excludeAllTags, artifacts`excludedTags
      ensures err.Pass? <==>
        forall j | 0 <= j < |artifacts| :: Defaults(artifacts[j].sourceArtifact, artifacts[j].doNotMirror).Ok?
      ensures err.Pass? ==> forall j | 0 <= j < |artifacts| :: artifacts[j].Defaulted()
      ensures err.Fail? ==>
        exists k :: 0 <= k < |artifacts|
          && (forall j | 0 <= j < k :: Defaults(artifacts[j].sourceArtifact, artifacts[j].doNotMirror).Ok?)
          && Defaults(artifacts[k].sourceArtifact, artifacts[k].doNotMirror).Err?
          && err.error == "failed to set defaults for artifact " + Quote(artifacts[k].sourceArtifact) + ": "
                          + Defaults(artifacts[k].sourceArtifact, artifacts[k].doNotMirror).error
    {
      var i := 0;
      while i < |artifacts|
        invariant 0 <= i <= |artifacts|
        invariant forall j | 0 <= j < i :: artifacts[j].Defaulted()
      {
        var artifact := artifacts[i];
        var e := artifact.SetDefaults();
        if e.Fail? {
          return Fail("failed to set defaults for artifact " + Quote(artifact.sourceArtifact) + ": " + e.error);
        }
        i := i + 1;
      }
      err := Pass;
    }

    /**
     * `Sort`: every artifact's tags in ascending order, the artifacts stably ordered by
     * identity and the repositories stably ordered by base URL.
     */
    method Sort()
      modifies this`artifacts, this`repositories, artifacts`tags
      ensures forall a | a in old(artifacts) :: a.tags == SortStrings(old(a.tags))
      ensures artifacts == old(SortArtifacts(artifacts))
      ensures repositories == SortBy(old(repositories), RepositoryKey)
    {
      SortArtifactTags();
      SortArtifactOrder();
    }

    /** The second step of `Sort`: the artifacts by identity, the repositories by base URL. */
    method SortArtifactOrder()
      modifies this`artifacts, this`repositories
      ensures artifacts == old(SortArtifacts(artifacts))
      ensures repositories == SortBy(old(repositories), RepositoryKey)
    {
      artifacts := SortArtifacts(artifacts);
      repositories := SortBy(repositories, RepositoryKey);
    }

    /** The first step of `Sort`: every artifact's tags in ascending order, which leaves their order by identity as it was. */
    method SortArtifactTags()
      modifies artifacts`tags
      ensures forall a | a in artifacts :: a.tags == SortStrings(old(a.tags))
      ensures SortArtifacts(artifacts) == old(SortArtifacts(artifacts))
    {
      ghost var keyed := Keyed(artifacts);
      SortEachArtifact(artifacts);
      assert Keyed(artifacts) == keyed;
    }

    /**
     * `ToRegsyncConfig`: one login per distinct repository login, sorted by registry; the
     * fixed user agent; and the directives of every artifact, in artifact order.
     */
    method ToRegsyncConfig() returns (rc: Regsync.Config)
      ensures rc.defaults.userAgent == UserAgent
      ensures Distinct(rc.creds)
      ensures forall c :: c in rc.creds <==> exists r :: r in repositories && CredOf(r) == c
      ensures SortedBy(rc.creds, CredKey)
      ensures rc.sync == ConfigSyncs(artifacts, repositories)
    {
      var creds := RegsyncCreds(repositories);
      var sync := RegsyncSyncs(artifacts, repositories);
      rc := Regsync.Config(creds, Regsync.ConfigDefaults(UserAgent), sync);
    }

    /**
     * `DeepCopy`: a new configuration with the same repositories and a fresh copy of every
     * artifact, so changing the copy leaves this configuration as it is.
     */
    method DeepCopy() returns (c: Config)
      ensures fresh(c)
      ensures c.repositories == repositories
      ensures |c.artifacts| == |artifacts|
      ensures forall i | 0 <= i < |artifacts| :: fresh(c.artifacts[i]) && c.artifacts[i].View() == artifacts[i].View()
    {
      var copies: seq<Artifact> := [];
      var i := 0;
      while i < |artifacts|
        invariant 0 <= i <= |artifacts|
        invariant |copies| == i
        invariant forall j | 0 <= j < i :: fresh(copies[j]) && copies[j].View() == artifacts[j].View()
      {
        var copied := artifacts[i].DeepCopy();
        copies := copies + [copied];
        i := i + 1;
      }
      c := new Config(copies, repositories);
    }
  }
}
