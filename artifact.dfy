/**
 * The artifact entity of the mirror configuration: a source image or chart reference,
 * the tags to mirror, the name it gets in the target repositories, which repositories
 * receive it, and the tags (or all tags) excluded from mirroring.
 *
 * The rules are functions over `ArtifactFields`, a snapshot of an artifact's fields; the
 * `Artifact` class holds the fields the Go code updates in place and its methods are
 * proved against those functions.
 */
module Artifacts {
  import opened Wrappers
  import opened Text
  import opened Ordering
  import opened Sorting
  import opened Dynamic
  import opened Regsync
  import opened Repositories

  /** Registry host of AppCo artifacts, whose target name is built from the last segment only. */
  const AppCoRegistry := "dp.apps.rancher.io"
  /** Docker Hub prefix that does not change which image a reference names. */
  const DockerIoPrefix := "docker.io/"

  /** What `DoNotMirror` excludes: every tag, and a set of individual tags. */
  datatype Exclusion = Exclusion(excludeAll: bool, excluded: set<string>)

  /** A snapshot of the fields of an `Artifact`. */
  datatype ArtifactFields = ArtifactFields(
    doNotMirror: Dyn,
    sourceArtifact: string,
    defaultTargetArtifactName: string,
    excludeAllTags: bool,
    excludedTags: set<string>,
    specifiedTargetArtifactName: string,
    tags: seq<string>,
    targetRepositories: seq<string>)

  // ---------------------------------------------------------------------------
  // setDefaults

  /** The target name an artifact gets when none is specified. */
  function DefaultTargetName(source: string): (r: Result<string>)
  {
    var parts := Split(source, '/');
    if |parts| < 2 then
      Err("source artifact split into " + NatToString(|parts|) + " parts (>=2 parts expected)")
    else if parts[0] == AppCoRegistry then
      Ok("appco-" + parts[|parts| - 1])
    else
      Ok("mirrored-" + parts[|parts| - 2] + "-" + parts[|parts| - 1])
  }

  /** A source reference has a default target name exactly when it holds a "/". */
  lemma DefaultTargetNameDefined(source: string)
    ensures DefaultTargetName(source).Ok? <==> '/' in source
  {
    SplitSeveral(source, '/');
  }

  /**
   * Outside AppCo the default name is built from the last two path segments alone:
   * "mirrored-" + second-to-last + "-" + last, whatever registry and path come before.
   */
  lemma {:induction false} DefaultTargetNameMirrored(prefix: string, org: string, name: string)
    requires '/' !in org && '/' !in name
    requires prefix == [] || Split(prefix, '/')[0] != AppCoRegistry
    requires prefix != [] || org != AppCoRegistry
    ensures var source := if prefix == [] then org + "/" + name else prefix + "/" + org + "/" + name;
      DefaultTargetName(source) == Ok("mirrored-" + org + "-" + name)
  {
    SplitNoSep(org, '/');
    SplitNoSep(name, '/');
    SplitAround(org, name, '/');
    if prefix != [] {
      assert prefix + "/" + org + "/" + name == prefix + ['/'] + (org + ['/'] + name);
      SplitAround(prefix, org + ['/'] + name, '/');
    }
  }

  /** Under the AppCo registry the default name is "appco-" + the last segment. */
  lemma {:induction false} DefaultTargetNameAppCo(path: string, name: string)
    requires '/' !in name
    ensures DefaultTargetName(AppCoRegistry + "/" + path + "/" + name) == Ok("appco-" + name)
  {
    var registry := AppCoRegistry;
    var tail := path + ['/'] + name;
    assert registry + "/" + path + "/" + name == registry + ['/'] + tail;
    var parts := Split(registry + ['/'] + tail, '/');
    assert parts == [registry] + (Split(path, '/') + [name]) by {
      assert '/' !in registry;
      SplitNoSep(registry, '/');
      SplitNoSep(name, '/');
      SplitAround(path, name, '/');
      SplitAround(registry, tail, '/');
    }
    assert parts[0] == registry && parts[|parts| - 1] == name;
  }

  /** The loop over a `DoNotMirror` list: every element must be a string seen for the first time. */
  function ParseExcludedTags(items: seq<Dyn>, seen: set<string>): (r: Result<set<string>>)
    decreases |items|
  {
    if items == [] then Ok(seen)
    else
      match items[0]
      case DString(t) =>
        if t in seen then Err("DoNotMirror entry " + Quote(t) + " is duplicated")
        else ParseExcludedTags(items[1..], seen + {t})
      case _ => Err("failed to cast " + Show(items[0]) + " to string")
  }

  /** The strings among `items`. */
  function StringsOf(items: seq<Dyn>): set<string>
  {
    set i | 0 <= i < |items| && items[i].DString? :: items[i].s
  }

  /** `items` is a list of pairwise different strings, none of them already in `seen`. */
  ghost predicate FreshStrings(items: seq<Dyn>, seen: set<string>)
  {
    (forall i :: 0 <= i < |items| ==> items[i].DString? && items[i].s !in seen)
    && (forall i, j :: 0 <= i < j < |items| ==> items[i] != items[j])
  }

  /**
   * A list is accepted exactly when it holds pairwise different strings, and then the
   * excluded set is exactly those strings.
   */
  lemma {:induction false} ParseExcludedTagsSpec(items: seq<Dyn>, seen: set<string>)
    ensures ParseExcludedTags(items, seen).Ok? <==> FreshStrings(items, seen)
    ensures ParseExcludedTags(items, seen).Ok? ==>
      ParseExcludedTags(items, seen).value == seen + StringsOf(items)
    decreases |items|
  {
    if items != [] {
      var rest := items[1..];
      if items[0].DString? {
        var t := items[0].s;
        ParseExcludedTagsSpec(rest, seen + {t});
        if FreshStrings(items, seen) {
          assert FreshStrings(rest, seen + {t}) by {
            forall i | 0 <= i < |rest| ensures rest[i].s != t {
              assert items[i + 1] != items[0];
            }
          }
          assert StringsOf(items) == {t} + StringsOf(rest) by {
            forall x | x in StringsOf(items) ensures x in {t} + StringsOf(rest) {
              var i :| 0 <= i < |items| && items[i].DString? && items[i].s == x;
              if i > 0 { assert rest[i - 1].s == x; }
            }
            forall x | x in StringsOf(rest) ensures x in StringsOf(items) {
              var i :| 0 <= i < |rest| && rest[i].DString? && rest[i].s == x;
              assert items[i + 1].s == x;
            }
          }
        } else if t !in seen {
          if FreshStrings(rest, seen + {t}) {
            forall i, j | 0 <= i < j < |items| ensures items[i] != items[j] {
              if i == 0 { assert rest[j - 1].s !in seen + {t}; } else { assert rest[i - 1] != rest[j - 1]; }
            }
            assert FreshStrings(items, seen);
          }
        }
      } else {
        assert !FreshStrings(items, seen);
      }
    }
  }

  /** The `switch` on the dynamic type of `DoNotMirror`. */
  function ParseDoNotMirror(d: Dyn): (r: Result<Exclusion>)
  {
    match d
    case DNil => Ok(Exclusion(false, {}))
    case DBool(b) => Ok(Exclusion(b, {}))
    case DList(items) =>
      var excluded :- ParseExcludedTags(items, {});
      Ok(Exclusion(false, excluded))
    case _ => Err("DoNotMirror must be nil, bool, or []any")
  }

  /**
   * nil excludes nothing, a boolean excludes all tags or none, a list of pairwise different
   * strings excludes exactly those tags, and anything else is rejected.
   */
  lemma DoNotMirrorCases(d: Dyn)
    ensures d.DNil? ==> ParseDoNotMirror(d) == Ok(Exclusion(false, {}))
    ensures d.DBool? ==> ParseDoNotMirror(d) == Ok(Exclusion(d.b, {}))
    ensures d.DList? ==>
      (ParseDoNotMirror(d).Ok? <==> FreshStrings(d.items, {}))
      && (ParseDoNotMirror(d).Ok? ==>
        ParseDoNotMirror(d).value == Exclusion(false, StringsOf(d.items)))
    ensures !(d.DNil? || d.DBool? || d.DList?) ==> ParseDoNotMirror(d).Err?
  {
    if d.DList? {
      ParseExcludedTagsSpec(d.items, {});
      assert {} + StringsOf(d.items) == StringsOf(d.items);
    }
  }

  /** Everything `setDefaults` derives: the default target name and the exclusions. */
  function Defaults(source: string, doNotMirror: Dyn): (r: Result<(string, Exclusion)>)
    ensures r.Ok? <==> DefaultTargetName(source).Ok? && ParseDoNotMirror(doNotMirror).Ok?
  {
    var name :- DefaultTargetName(source);
    var exclusion :- ParseDoNotMirror(doNotMirror);
    Ok((name, exclusion))
  }

  // ---------------------------------------------------------------------------
  // Target artifact name

  /** `TargetArtifactName`: the specified name, or the default when none is specified. */
  function EffectiveName(specified: string, default: string): string
  {
    if specified != "" then specified else default
  }

  /** What `SetTargetArtifactName(value)` stores: nothing when the value is the default. */
  function StoredName(value: string, default: string): string
  {
    if value == default then "" else value
  }

  /**
   * Setting a name and reading it back gives that name, or the default for the empty
   * name; a name equal to the default is never stored.
   */
  lemma NameRoundTrip(value: string, default: string)
    ensures EffectiveName(StoredName(value, default), default) == (if value != "" then value else default)
    ensures StoredName(value, default) == "" <==> value == default || value == ""
  {
  }

  function TargetName(v: ArtifactFields): string
  {
    EffectiveName(v.specifiedTargetArtifactName, v.defaultTargetArtifactName)
  }

  /** The identity of an artifact: its source reference and its target name. */
  function KeyOf(v: ArtifactFields): seq<string>
  {
    [v.sourceArtifact, TargetName(v)]
  }

  // ---------------------------------------------------------------------------
  // Regsync directives

  /** The tags that are not individually excluded, in tag order. */
  function Kept(tags: seq<string>, excluded: set<string>): (r: seq<string>)
    ensures |r| <= |tags|
    ensures forall t :: t in r <==> t in tags && t !in excluded
  {
    if tags == [] then []
    else
      var last := tags[|tags| - 1];
      assert tags == tags[..|tags| - 1] + [last];
      Kept(tags[..|tags| - 1], excluded) + (if last in excluded then [] else [last])
  }

  lemma {:induction false} KeptNoneExcluded(tags: seq<string>, excluded: set<string>)
    requires forall t :: t in tags ==> t !in excluded
    ensures Kept(tags, excluded) == tags
  {
    if tags != [] {
      KeptNoneExcluded(tags[..|tags| - 1], excluded);
      assert tags == tags[..|tags| - 1] + [tags[|tags| - 1]];
    }
  }

  /** One "image" directive per tag, copying `source:tag` to `target:tag`. */
  function Directives(source: string, target: string, tags: seq<string>): seq<ConfigSync>
  {
    seq(|tags|, i requires 0 <= i < |tags| => ConfigSync(source + ":" + tags[i], target + ":" + tags[i], ImageType))
  }

  /** The directives for one repository, before the repository filters. */
  function SyncsFor(v: ArtifactFields, repo: Repository): seq<ConfigSync>
  {
    if v.excludeAllTags then []
    else Directives(v.sourceArtifact, repo.baseUrl + "/" + TargetName(v), Kept(v.tags, v.excludedTags))
  }

  /**
   * A directive is produced for a repository exactly when the artifact is not wholly
   * excluded and the directive copies a non-excluded tag of it to the same tag under
   * baseUrl/targetName.
   */
  lemma SyncsForMember(v: ArtifactFields, repo: Repository, e: ConfigSync)
    ensures e in SyncsFor(v, repo) <==>
      && !v.excludeAllTags
      && (exists t :: t in v.tags && t !in v.excludedTags
           && e == ConfigSync(v.sourceArtifact + ":" + t, repo.baseUrl + "/" + TargetName(v) + ":" + t, ImageType))
  {
    var kept := Kept(v.tags, v.excludedTags);
    var target := repo.baseUrl + "/" + TargetName(v);
    if e in SyncsFor(v, repo) {
      var i :| 0 <= i < |kept| && Directives(v.sourceArtifact, target, kept)[i] == e;
      assert kept[i] in kept;
    }
    if !v.excludeAllTags {
      forall t | t in v.tags && t !in v.excludedTags
        ensures ConfigSync(v.sourceArtifact + ":" + t, target + ":" + t, ImageType) in SyncsFor(v, repo)
      {
        var i :| 0 <= i < |kept| && kept[i] == t;
        assert Directives(v.sourceArtifact, target, kept)[i] == ConfigSync(v.sourceArtifact + ":" + t, target + ":" + t, ImageType);
      }
    }
  }

  /**
   * Whether `ToRegsyncArtifacts` emits directives for a repository: it is a default target
   * or named by a non-empty TargetRepositories, and the target reference is not the
   * source itself (comparing after dropping one "docker.io/" from each).
   */
  predicate Targets(v: ArtifactFields, repo: Repository)
  {
    && (repo.defaultTarget || |v.targetRepositories| > 0)
    && (|v.targetRepositories| == 0 || repo.baseUrl in v.targetRepositories)
    && TrimPrefix(v.sourceArtifact, DockerIoPrefix)
       != TrimPrefix(repo.baseUrl + "/" + TargetName(v), DockerIoPrefix)
  }

  /** The directives for one repository, after the repository filters. */
  function RepositorySyncs(v: ArtifactFields, repo: Repository): seq<ConfigSync>
  {
    if Targets(v, repo) then SyncsFor(v, repo) else []
  }

  /** All directives of an artifact: per repository, in repository order. */
  function ArtifactSyncs(v: ArtifactFields, repos: seq<Repository>): seq<ConfigSync>
  {
    if repos == [] then []
    else ArtifactSyncs(v, repos[..|repos| - 1]) + RepositorySyncs(v, repos[|repos| - 1])
  }

  /** A directive is produced exactly when some repository that the artifact targets produces it. */
  lemma {:induction false} ArtifactSyncsMember(v: ArtifactFields, repos: seq<Repository>, e: ConfigSync)
    ensures e in ArtifactSyncs(v, repos) <==>
      exists j :: 0 <= j < |repos| && Targets(v, repos[j]) && e in SyncsFor(v, repos[j])
  {
    if repos != [] {
      var init := repos[..|repos| - 1];
      ArtifactSyncsMember(v, init, e);
      if e in ArtifactSyncs(v, init) {
        var j :| 0 <= j < |init| && Targets(v, init[j]) && e in SyncsFor(v, init[j]);
        assert repos[j] == init[j];
      }
      if exists j :: 0 <= j < |repos| && Targets(v, repos[j]) && e in SyncsFor(v, repos[j]) {
        var j :| 0 <= j < |repos| && Targets(v, repos[j]) && e in SyncsFor(v, repos[j]);
        if j < |init| { assert init[j] == repos[j]; }
      }
    }
  }

  /**
   * Without TargetRepositories, only default-target repositories receive the artifact;
   * with them, exactly the listed ones do, whatever their DefaultTarget flag.
   */
  lemma TargetsRepositoryFilter(v: ArtifactFields, repo: Repository)
    requires TrimPrefix(v.sourceArtifact, DockerIoPrefix) != TrimPrefix(repo.baseUrl + "/" + TargetName(v), DockerIoPrefix)
    ensures |v.targetRepositories| == 0 ==> (Targets(v, repo) <==> repo.defaultTarget)
    ensures |v.targetRepositories| > 0 ==> (Targets(v, repo) <==> repo.baseUrl in v.targetRepositories)
  {
  }

  /**
   * An artifact is never mirrored onto itself: when the target reference names the source
   * image, with or without the implicit "docker.io/", no directive is emitted for it.
   */
  lemma SelfTargetExcluded(v: ArtifactFields, repo: Repository, ref: string)
    requires !HasPrefix(ref, DockerIoPrefix)
    requires v.sourceArtifact == ref || v.sourceArtifact == DockerIoPrefix + ref
    requires repo.baseUrl + "/" + TargetName(v) == ref || repo.baseUrl + "/" + TargetName(v) == DockerIoPrefix + ref
    ensures !Targets(v, repo)
    ensures ArtifactSyncs(v, [repo]) == []
  {
    TrimPrefixOfPrefixed(DockerIoPrefix, ref);
    assert [repo][..0] == [];
    assert ArtifactSyncs(v, [repo]) == RepositorySyncs(v, repo);
  }

  /** `CombineSourceArtifactAndTags`: the full references "source:tag", one per tag. */
  function Combined(source: string, tags: seq<string>): (r: seq<string>)
    ensures |r| == |tags|
    ensures forall i :: 0 <= i < |tags| ==> r[i] == source + ":" + tags[i]
  {
    if tags == [] then [] else Combined(source, tags[..|tags| - 1]) + [source + ":" + tags[|tags| - 1]]
  }

  /** `CompareArtifacts` on snapshots: by source reference, then by target name. */
  function CompareFields(a: ArtifactFields, b: ArtifactFields): (c: int)
    ensures c == 0 <==> a.sourceArtifact == b.sourceArtifact && TargetName(a) == TargetName(b)
    ensures c < 0 <==>
      StrCompare(a.sourceArtifact, b.sourceArtifact) < 0
      || (a.sourceArtifact == b.sourceArtifact && StrCompare(TargetName(a), TargetName(b)) < 0)
  {
    var c := KeyCompare(KeyOf(a), KeyOf(b));
    assert KeyOf(a)[1..] == [TargetName(a)] && KeyOf(b)[1..] == [TargetName(b)];
    assert KeyCompare([TargetName(a)], [TargetName(b)]) == StrCompare(TargetName(a), TargetName(b)) by {
      assert [TargetName(a)][1..] == [] == [TargetName(b)][1..];
    }
    c
  }

  // ---------------------------------------------------------------------------
  // The entity

  class Artifact {
    var doNotMirror: Dyn
    var sourceArtifact: string
    var defaultTargetArtifactName: string
    var excludeAllTags: bool
    var excludedTags: set<string>
    var specifiedTargetArtifactName: string
    var tags: seq<string>
    var targetRepositories: seq<string>

    function View(): ArtifactFields
      reads this
    {
      ArtifactFields(doNotMirror, sourceArtifact, defaultTargetArtifactName, excludeAllTags,
        excludedTags, specifiedTargetArtifactName, tags, targetRepositories)
    }

    /** The fields `setDefaults` derives agree with the source reference and `DoNotMirror`. */
    ghost predicate Defaulted()
      reads this
    {
      Defaults(sourceArtifact, doNotMirror)
        == Ok((defaultTargetArtifactName, Exclusion(excludeAllTags, excludedTags)))
    }

    /** The composite literal: the derived fields start at their zero values. */
    constructor Literal(source: string, tags: seq<string>, doNotMirror: Dyn, targetRepositories: seq<string>)
      ensures View() == ArtifactFields(doNotMirror, source, "", false, {}, "", tags, targetRepositories)
    {
      this.doNotMirror := doNotMirror;
      this.sourceArtifact := source;
      this.defaultTargetArtifactName := "";
      this.excludeAllTags := false;
      this.excludedTags := {};
      this.specifiedTargetArtifactName := "";
      this.tags := tags;
      this.targetRepositories := targetRepositories;
    }

    /** `NewArtifact`: a fresh artifact with its defaults set and its target name applied. */
    static method NewArtifact(source: string, tags: seq<string>, targetName: string, doNotMirror: Dyn,
                              targetRepositories: seq<string>) returns (r: Result<Artifact>)
      ensures r.Ok? <==> Defaults(source, doNotMirror).Ok?
      ensures r.Err? ==> r.error == Defaults(source, doNotMirror).error
      ensures r.Ok? ==>
        && fresh(r.value)
        && r.value.Defaulted()
        && r.value.sourceArtifact == source && r.value.tags == tags
        && r.value.doNotMirror == doNotMirror && r.value.targetRepositories == targetRepositories
        && r.value.specifiedTargetArtifactName == StoredName(targetName, r.value.defaultTargetArtifactName)
    {
      var a := new Artifact.Literal(source, tags, doNotMirror, targetRepositories);
      var err := a.SetDefaults();
      if err.Fail? {
        return Err(err.error);
      }
      a.SetTargetArtifactName(targetName);
      r := Ok(a);
    }

    /** `setDefaults`: derives the default target name and the exclusions. */
    method SetDefaults() returns (err: Outcome)
      modifies this`defaultTargetArtifactName, this`excludeAllTags, this`excludedTags
      ensures err.Pass? <==> Defaults(sourceArtifact, doNotMirror).Ok?
      ensures err.Fail? ==> err.error == Defaults(sourceArtifact, doNotMirror).error
      ensures err.Pass? ==> Defaulted()
    {
      var parts := Split(sourceArtifact, '/');
      if |parts| < 2 {
        return Fail("source artifact split into " + NatToString(|parts|) + " parts (>=2 parts expected)");
      }
      if parts[0] == AppCoRegistry {
        defaultTargetArtifactName := "appco-" + parts[|parts| - 1];
      } else {
        defaultTargetArtifactName := "mirrored-" + parts[|parts| - 2] + "-" + parts[|parts| - 1];
      }
      assert DefaultTargetName(sourceArtifact) == Ok(defaultTargetArtifactName);
      excludeAllTags := false;
      excludedTags := {};
      match doNotMirror {
        case DNil =>
        case DBool(b) =>
          excludeAllTags := b;
        case DList(items) =>
          err := ExcludeEach(items);
          if err.Fail? {
            return;
          }
        case _ =>
          return Fail("DoNotMirror must be nil, bool, or []any");
      }
      assert DefaultTargetName(sourceArtifact) == Ok(defaultTargetArtifactName);
      assert ParseDoNotMirror(doNotMirror) == Ok(Exclusion(excludeAllTags, excludedTags));
      err := Pass;
    }

    /** The loop of `setDefaults` over a DoNotMirror list: each string becomes an excluded tag. */
    method ExcludeEach(items: seq<Dyn>) returns (err: Outcome)
      requires excludedTags == {}
      modifies this`excludedTags
      ensures err.Pass? <==> ParseExcludedTags(items, {}).Ok?
      ensures err.Pass? ==> ParseExcludedTags(items, {}) == Ok(excludedTags)
      ensures err.Fail? ==> err.error == ParseExcludedTags(items, {}).error
    {
      var i := 0;
      while i < |items|
        invariant 0 <= i <= |items|
        invariant ParseExcludedTags(items, {}) == ParseExcludedTags(items[i..], excludedTags)
      {
        assert items[i..][1..] == items[i + 1..];
        match items[i] {
          case DString(t) =>
            if t in excludedTags {
              return Fail("DoNotMirror entry " + Quote(t) + " is duplicated");
            }
            excludedTags := excludedTags + {t};
          case _ =>
            return Fail("failed to cast " + Show(items[i]) + " to string");
        }
        i := i + 1;
      }
      assert items[i..] == [];
      err := Pass;
    }

    function TargetArtifactName(): (name: string)
      reads this`specifiedTargetArtifactName, this`defaultTargetArtifactName
    {
      EffectiveName(specifiedTargetArtifactName, defaultTargetArtifactName)
    }

    method SetTargetArtifactName(value: string)
      modifies this`specifiedTargetArtifactName
      ensures specifiedTargetArtifactName == StoredName(value, defaultTargetArtifactName)
      ensures TargetArtifactName() == if value != "" then value else defaultTargetArtifactName
    {
      if value == defaultTargetArtifactName {
        specifiedTargetArtifactName := "";
      } else {
        specifiedTargetArtifactName := value;
      }
    }

    /** The accumulator's key; it reads only the fields that make up the identity. */
    function Key(): seq<string>
      reads this`sourceArtifact, this`specifiedTargetArtifactName, this`defaultTargetArtifactName
    {
      [sourceArtifact, TargetArtifactName()]
    }

    /** `Sort`: the tags in ascending order. */
    method Sort()
      modifies this`tags
      ensures tags == SortStrings(old(tags))
    {
      tags := SortStrings(tags);
    }

    method CombineSourceArtifactAndTags() returns (full: seq<string>)
      ensures full == Combined(sourceArtifact, tags)
    {
      full := [];
      var i := 0;
      while i < |tags|
        invariant 0 <= i <= |tags|
        invariant full == Combined(sourceArtifact, tags[..i])
      {
        assert tags[..i + 1][..i] == tags[..i];
        full := full + [sourceArtifact + ":" + tags[i]];
        i := i + 1;
      }
      assert tags[..i] == tags;
    }

    method ToRegsyncArtifactsForSingleRepository(repo: Repository) returns (entries: seq<ConfigSync>)
      ensures entries == SyncsFor(View(), repo)
    {
      if excludeAllTags {
        return [];
      }
      var target := repo.baseUrl + "/" + TargetArtifactName();
      entries := [];
      var i := 0;
      while i < |tags|
        invariant 0 <= i <= |tags|
        invariant entries == Directives(sourceArtifact, target, Kept(tags[..i], excludedTags))
      {
        var tag := tags[i];
        assert tags[..i + 1][..i] == tags[..i];
        if tag !in excludedTags {
          entries := entries + [ConfigSync(sourceArtifact + ":" + tag, target + ":" + tag, ImageType)];
        }
        i := i + 1;
      }
      assert tags[..i] == tags;
    }

    /**
     * `ToRegsyncArtifacts`. Its error result is always nil, because the per-repository
     * conversion it wraps never fails, so the model returns the directives alone.
     */
    method ToRegsyncArtifacts(repositories: seq<Repository>) returns (entries: seq<ConfigSync>)
      ensures entries == ArtifactSyncs(View(), repositories)
    {
      entries := [];
      var i := 0;
      while i < |repositories|
        invariant 0 <= i <= |repositories|
        invariant entries == ArtifactSyncs(View(), repositories[..i])
      {
        var repository := repositories[i];
        assert repositories[..i + 1][..i] == repositories[..i];
        if !repository.defaultTarget && |targetRepositories| == 0 {
          i := i + 1;
          continue;
        }
        if |targetRepositories| > 0 && repository.baseUrl !in targetRepositories {
          i := i + 1;
          continue;
        }
        var trimmedSource := TrimPrefix(sourceArtifact, DockerIoPrefix);
        var trimmedTarget := TrimPrefix(repository.baseUrl + "/" + TargetArtifactName(), DockerIoPrefix);
        if trimmedSource == trimmedTarget {
          i := i + 1;
          continue;
        }
        var syncEntries := ToRegsyncArtifactsForSingleRepository(repository);
        entries := entries + syncEntries;
        i := i + 1;
      }
      assert repositories[..i] == repositories;
    }

    /** `DeepCopy`: a new artifact with the same field values. */
    method DeepCopy() returns (c: Artifact)
      ensures fresh(c)
      ensures c.View() == View()
    {
      c := new Artifact.Literal(sourceArtifact, tags, doNotMirror, targetRepositories);
      c.defaultTargetArtifactName := defaultTargetArtifactName;
      c.specifiedTargetArtifactName := specifiedTargetArtifactName;
      c.excludeAllTags := excludeAllTags;
      c.excludedTags := excludedTags;
    }
  }

  /** `CompareArtifacts`: by source reference, then by target name. */
  function CompareArtifacts(a: Artifact, b: Artifact): (c: int)
    reads a, b
    ensures c == CompareFields(a.View(), b.View())
  {
    KeyCompare(a.Key(), b.Key())
  }
}
