/**
 * The repository checks of the command-line tool (tools/main.go): no two artifacts share an
 * identity, no tag of the merge-base configuration disappears, every new tag can be pulled,
 * and every new Docker Hub target repository exists. Each check appends its errors to a
 * shared list; `validate` fails exactly when that list is not empty.
 *
 * The configuration file's name and the merge-base branch are parameters (the package
 * holding the paths is not part of this model). Loading the merge-base configuration, the
 * registry pulls and the Docker Hub listing are parameters too.
 */
module Validators {
  import opened Wrappers
  import opened Text
  import opened Dynamic
  import opened Artifacts
  import opened Accumulator

  /** The error `loadMergeBaseConfigYaml` failing adds. */
  function LoadError(configYaml: string, branch: string, e: string): string
  {
    "failed to load " + configYaml + " from merge base " + Quote(branch) + ": " + e
  }

  // ---------------------------------------------------------------------------
  // Duplicate identities

  /** The identities that were already seen when they occur again, in order of occurrence. */
  function Repeated(keys: seq<ArtifactIndex>, seen: set<ArtifactIndex>): seq<ArtifactIndex>
  {
    if keys == [] then []
    else if keys[0] in seen then [keys[0]] + Repeated(keys[1..], seen)
    else Repeated(keys[1..], seen + {keys[0]})
  }

  function ToSet(keys: seq<ArtifactIndex>): set<ArtifactIndex>
  {
    set k | k in keys
  }

  /**
   * Every occurrence of an identity after its first is reported once, and first
   * occurrences never are: the reports number the occurrences less the distinct identities.
   */
  lemma {:induction false} RepeatedCount(keys: seq<ArtifactIndex>, seen: set<ArtifactIndex>)
    ensures |Repeated(keys, seen)| + |seen + ToSet(keys)| == |keys| + |seen|
  {
    if keys != [] {
      var rest := keys[1..];
      assert ToSet(keys) == {keys[0]} + ToSet(rest) by {
        assert keys == [keys[0]] + rest;
      }
      if keys[0] in seen {
        RepeatedCount(rest, seen);
        assert seen + ToSet(keys) == seen + ToSet(rest);
      } else {
        RepeatedCount(rest, seen + {keys[0]});
        assert seen + ToSet(keys) == (seen + {keys[0]}) + ToSet(rest);
        assert |seen + {keys[0]}| == |seen| + 1;
      }
    }
  }

  /** Nothing is reported exactly when the identities are pairwise different and none was seen before. */
  lemma {:induction false} RepeatedNone(keys: seq<ArtifactIndex>, seen: set<ArtifactIndex>)
    ensures Repeated(keys, seen) == [] <==>
      (forall i :: 0 <= i < |keys| ==> keys[i] !in seen) && (forall i, j :: 0 <= i < j < |keys| ==> keys[i] != keys[j])
  {
    if keys != [] {
      var rest := keys[1..];
      RepeatedNone(rest, seen + {keys[0]});
      assert forall i :: 1 <= i < |keys| ==> keys[i] == rest[i - 1];
    }
  }

  function DuplicateError(configYaml: string, k: ArtifactIndex): string
  {
    "found multiple artifacts in " + configYaml + " with SourceArtifact " + k.sourceArtifact
    + " and TargetArtifactName " + k.targetArtifactName
  }

  function DuplicateErrors(configYaml: string, keys: seq<ArtifactIndex>): (r: seq<string>)
    ensures |r| == |keys|
    ensures forall i :: 0 <= i < |keys| ==> r[i] == DuplicateError(configYaml, keys[i])
  {
    seq(|keys|, i requires 0 <= i < |keys| => DuplicateError(configYaml, keys[i]))
  }

  /** `validateSourceArtifactAndTargetArtifactName`: one error per repeated identity, in order. */
  method ValidateSourceArtifactAndTargetArtifactName(configYaml: string, artifacts: seq<Artifact>)
    returns (errs: seq<string>)
    ensures errs == DuplicateErrors(configYaml, Repeated(Keys(Views(artifacts)), {}))
  {
    ghost var keys := Keys(Views(artifacts));
    var artifactMap: set<ArtifactIndex> := {};
    ghost var done: seq<ArtifactIndex> := [];
    errs := [];
    var i := 0;
    while i < |artifacts|
      invariant 0 <= i <= |artifacts|
      invariant Repeated(keys, {}) == done + Repeated(keys[i..], artifactMap)
      invariant errs == DuplicateErrors(configYaml, done)
    {
      assert keys[i..][1..] == keys[i + 1..];
      var index := ArtifactIndex(artifacts[i].sourceArtifact, artifacts[i].TargetArtifactName());
      assert index == keys[i];
      if index in artifactMap {
        errs := errs + [DuplicateError(configYaml, index)];
        assert done + [index] + Repeated(keys[i + 1..], artifactMap) == done + ([index] + Repeated(keys[i + 1..], artifactMap));
        done := done + [index];
      } else {
        artifactMap := artifactMap + {index};
      }
      i := i + 1;
    }
    assert keys[i..] == [];
    assert done + [] == done;
  }

  // ---------------------------------------------------------------------------
  // Tag differences

  /** One call of `TagDifference`, read back as a value. */
  method Diff(acc: ArtifactAccumulator, a: Artifact) returns (d: Result<Option<(ArtifactIndex, seq<string>)>>)
    requires acc.Valid()
    ensures d == Difference(a.View(), acc.Contents())
  {
    var r := acc.TagDifference(a);
    if r.Err? {
      return Err(r.error);
    }
    if r.value == null {
      return Ok(None);
    }
    d := Ok(Some((IndexOf(r.value), r.value.tags)));
  }

  function DiffError(source: string, name: string, e: string): string
  {
    "failed to diff artifact " + source + " (TargetArtifactName " + Quote(name) + "): " + e
  }

  function RemovedError(source: string, tag: string, name: string): string
  {
    source + ":" + tag + " removed (TargetArtifactName " + Quote(name) + ")"
  }

  function RemovedTags(d: (ArtifactIndex, seq<string>)): (r: seq<string>)
    ensures |r| == |d.1|
    ensures forall i :: 0 <= i < |d.1| ==> r[i] == RemovedError(d.0.sourceArtifact, d.1[i], d.0.targetArtifactName)
  {
    seq(|d.1|, i requires 0 <= i < |d.1| => RemovedError(d.0.sourceArtifact, d.1[i], d.0.targetArtifactName))
  }

  /** The errors for one old artifact. */
  function Removed(v: ArtifactFields, c: Contents): seq<string>
  {
    match Difference(v, c)
    case Err(e) => [DiffError(v.sourceArtifact, TargetName(v), e)]
    case Ok(None) => []
    case Ok(Some(d)) => RemovedTags(d)
  }

  /** The errors of `checkNoTagsRemoved` for the old artifacts against the new contents. */
  function RemovedErrors(olds: seq<ArtifactFields>, c: Contents): seq<string>
  {
    if olds == [] then [] else Removed(olds[0], c) + RemovedErrors(olds[1..], c)
  }

  /** An old tag the new contents lack is reported, under the artifact's own target name. */
  lemma {:induction false} RemovedTagReported(olds: seq<ArtifactFields>, c: Contents, i: nat, t: string)
    requires i < |olds| && t in olds[i].tags && TargetName(olds[i]) != ""
    requires Key(olds[i]) !in c || (Defaults(olds[i].sourceArtifact, olds[i].doNotMirror).Ok? && t !in c[Key(olds[i])])
    ensures RemovedError(olds[i].sourceArtifact, t, TargetName(olds[i])) in RemovedErrors(olds, c)
  {
    if i == 0 {
      DifferenceSpec(olds[0], c);
      var d := Difference(olds[0], c);
      var j :| 0 <= j < |d.value.value.1| && d.value.value.1[j] == t;
      assert RemovedTags(d.value.value)[j] == RemovedError(olds[0].sourceArtifact, t, TargetName(olds[0]));
    } else {
      RemovedTagReported(olds[1..], c, i - 1, t);
    }
  }

  /** `e` is the error of an artifact that failed to diff, or reports one of its tags the contents lack. */
  predicate Explains(v: ArtifactFields, c: Contents, e: string)
  {
    match Difference(v, c)
    case Err(error) => e == DiffError(v.sourceArtifact, TargetName(v), error)
    case Ok(None) => false
    case Ok(Some(d)) =>
      exists t :: t in v.tags && (Key(v) !in c || t !in c[Key(v)]) && e == RemovedError(v.sourceArtifact, t, d.0.targetArtifactName)
  }

  /** Every error is a failed difference or a tag of an old artifact that the new contents lack. */
  lemma {:induction false} RemovedErrorsSound(olds: seq<ArtifactFields>, c: Contents, e: string)
    requires e in RemovedErrors(olds, c)
    ensures exists i :: 0 <= i < |olds| && Explains(olds[i], c, e)
  {
    var d := Difference(olds[0], c);
    var here := Removed(olds[0], c);
    DifferenceSpec(olds[0], c);
    if e in here {
      if d.Ok? {
        var j :| 0 <= j < |d.value.value.1| && e == here[j];
        assert d.value.value.1[j] in d.value.value.1;
      }
      assert Explains(olds[0], c, e);
    } else {
      RemovedErrorsSound(olds[1..], c, e);
      var i :| 0 <= i < |olds[1..]| && Explains(olds[1..][i], c, e);
      assert olds[1..][i] == olds[i + 1];
    }
  }

  /** When the new contents hold every old tag under the same identity, nothing is reported. */
  lemma {:induction false} NothingRemoved(olds: seq<ArtifactFields>, c: Contents)
    requires forall i :: 0 <= i < |olds| ==>
      && Key(olds[i]) in c
      && Defaults(olds[i].sourceArtifact, olds[i].doNotMirror).Ok?
      && (forall t :: t in olds[i].tags ==> t in c[Key(olds[i])])
    ensures RemovedErrors(olds, c) == []
  {
    if olds != [] {
      DifferenceSpec(olds[0], c);
      assert Removed(olds[0], c) == [];
      assert forall i :: 1 <= i < |olds| ==> olds[1..][i - 1] == olds[i];
      NothingRemoved(olds[1..], c);
    }
  }

  /**
   * The tags artifact `j` of `arts` holds once `arts` is accumulated: the first artifact
   * with each identity is the one the accumulator stores and ends with every tag of that
   * identity; every other artifact keeps its own.
   */
  ghost predicate AccumulatedTags(arts: seq<Artifact>, entries: seq<(ArtifactIndex, seq<string>)>)
    requires |entries| == |arts|
    reads arts
  {
    forall j | 0 <= j < |arts| :: AccumulatedTagsAt(arts, entries, j)
  }

  /** `AccumulatedTags` for artifact `j`. */
  ghost predicate AccumulatedTagsAt(arts: seq<Artifact>, entries: seq<(ArtifactIndex, seq<string>)>, j: nat)
    requires |entries| == |arts| && j < |arts|
    reads arts
  {
    && entries[j].0 in AddAll(map[], entries)
    && arts[j].tags == (if arts[j] == arts[FirstOf(entries, j)]
                        then AddAll(map[], entries)[entries[j].0] else entries[j].1)
  }

  /** A fresh accumulator holding `arts`, as `NewArtifactAccumulator` followed by `AddArtifacts`. */
  method Accumulate(arts: seq<Artifact>) returns (accumulator: ArtifactAccumulator)
    modifies arts`tags
    ensures fresh(accumulator) && accumulator.Valid()
    ensures accumulator.Contents() == AddAll(map[], old(Entries(arts)))
    ensures AccumulatedTags(arts, old(Entries(arts)))
  {
    ghost var entries := Entries(arts);
    accumulator := new ArtifactAccumulator();
    assert accumulator.Contents() == map[];
    accumulator.AddArtifacts(arts);
    forall j | 0 <= j < |arts| ensures AccumulatedTagsAt(arts, entries, j) {
      var key := entries[j].0;
      assert accumulator.Contents()[key] == accumulator.mapping[key].tags;
    }
  }

  /** The merge-base artifacts accumulated, leaving the new artifacts, none of which is among them, as they were. */
  method AccumulateMergeBase(mergeBase: seq<Artifact>, newArtifacts: seq<Artifact>) returns (accumulator: ArtifactAccumulator)
    requires forall a :: a in mergeBase ==> a !in newArtifacts
    modifies mergeBase`tags
    ensures fresh(accumulator) && accumulator.Valid()
    ensures accumulator.Contents() == AddAll(map[], old(Entries(mergeBase)))
    ensures Views(newArtifacts) == old(Views(newArtifacts))
  {
    ghost var news := Views(newArtifacts);
    accumulator := Accumulate(mergeBase);
    forall i | 0 <= i < |newArtifacts| ensures newArtifacts[i].View() == news[i] {
      assert newArtifacts[i] !in mergeBase;
    }
  }

  /** The inner loop of `checkNoTagsRemoved`: one error per tag of a difference artifact. */
  method AppendRemoved(errs: seq<string>, d: (ArtifactIndex, seq<string>)) returns (r: seq<string>)
    ensures r == errs + RemovedTags(d)
  {
    r := errs;
    var j := 0;
    while j < |d.1|
      invariant 0 <= j <= |d.1|
      invariant r == errs + RemovedTags(d)[..j]
    {
      r := r + [RemovedError(d.0.sourceArtifact, d.1[j], d.0.targetArtifactName)];
      assert RemovedTags(d)[..j + 1] == RemovedTags(d)[..j] + [RemovedTags(d)[j]];
      j := j + 1;
    }
    assert RemovedTags(d)[..j] == RemovedTags(d);
  }

  /** The body of the loop of `checkNoTagsRemoved`, for one old artifact. */
  method ReportOne(accumulator: ArtifactAccumulator, oldArtifact: Artifact, errs: seq<string>) returns (r: seq<string>)
    requires accumulator.Valid()
    ensures r == errs + Removed(oldArtifact.View(), accumulator.Contents())
  {
    var diffArtifact := Diff(accumulator, oldArtifact);
    if diffArtifact.Err? {
      r := errs + [DiffError(oldArtifact.sourceArtifact, oldArtifact.TargetArtifactName(), diffArtifact.error)];
    } else if diffArtifact.value.Some? {
      r := AppendRemoved(errs, diffArtifact.value.value);
    } else {
      r := errs;
      assert errs + [] == errs;
    }
  }

  /** The loop of `checkNoTagsRemoved` over the old artifacts, against an accumulator it leaves as it is. */
  method ReportRemoved(accumulator: ArtifactAccumulator, oldArtifacts: seq<Artifact>) returns (errs: seq<string>)
    requires accumulator.Valid()
    ensures errs == RemovedErrors(Views(oldArtifacts), accumulator.Contents())
  {
    ghost var olds := Views(oldArtifacts);
    ghost var c := accumulator.Contents();
    errs := [];
    var i := 0;
    while i < |oldArtifacts|
      invariant 0 <= i <= |oldArtifacts|
      invariant accumulator.Valid() && accumulator.Contents() == c && Views(oldArtifacts) == olds
      invariant RemovedErrors(olds, c) == errs + RemovedErrors(olds[i..], c)
    {
      RemovedStep(olds, c, i, errs);
      errs := ReportOne(accumulator, oldArtifacts[i], errs);
      i := i + 1;
    }
    assert olds[i..] == [] && errs + [] == errs;
  }

  lemma RemovedStep(olds: seq<ArtifactFields>, c: Contents, i: nat, errs: seq<string>)
    requires i < |olds|
    requires RemovedErrors(olds, c) == errs + RemovedErrors(olds[i..], c)
    ensures RemovedErrors(olds, c) == (errs + Removed(olds[i], c)) + RemovedErrors(olds[i + 1..], c)
  {
    var tail := olds[i..];
    assert tail[0] == olds[i] && tail[1..] == olds[i + 1..];
    var here, rest := Removed(olds[i], c), RemovedErrors(olds[i + 1..], c);
    assert RemovedErrors(tail, c) == here + rest;
    assert errs + (here + rest) == (errs + here) + rest;
  }

  /**
   * `checkNoTagsRemoved`: the new artifacts are accumulated, and each old artifact's tags
   * the accumulation lacks are reported. The two lists are separate parses, so no artifact
   * is in both.
   */
  method CheckNoTagsRemoved(oldArtifacts: seq<Artifact>, newArtifacts: seq<Artifact>) returns (errs: seq<string>)
    requires forall a :: a in oldArtifacts ==> a !in newArtifacts
    modifies newArtifacts`tags
    ensures errs == RemovedErrors(old(Views(oldArtifacts)), AddAll(map[], old(Entries(newArtifacts))))
    ensures AccumulatedTags(newArtifacts, old(Entries(newArtifacts)))
  {
    ghost var olds := Views(oldArtifacts);
    var accumulator := Accumulate(newArtifacts);
    forall i | 0 <= i < |oldArtifacts| ensures oldArtifacts[i].View() == olds[i] {
      assert oldArtifacts[i] !in newArtifacts;
    }
    assert Views(oldArtifacts) == olds;
    errs := ReportRemoved(accumulator, oldArtifacts);
  }

  /** `validateNoTagsRemoved`: a merge base that fails to load is the only error, and leaves the new artifacts as they were. */
  method ValidateNoTagsRemoved(configYaml: string, branch: string, mergeBase: Result<seq<Artifact>>,
                               newArtifacts: seq<Artifact>)
    returns (errs: seq<string>)
    requires forall i, j | 0 <= i < j < |newArtifacts| :: newArtifacts[i] != newArtifacts[j]
    requires forall a | a in Loaded(mergeBase) :: a !in newArtifacts
    modifies newArtifacts`tags
    ensures mergeBase.Err? ==> errs == [LoadError(configYaml, branch, mergeBase.error)]
                               && Views(newArtifacts) == old(Views(newArtifacts))
    ensures mergeBase.Ok? ==>
      && errs == RemovedErrors(old(Views(mergeBase.value)), AddAll(map[], EntriesOf(old(Views(newArtifacts)))))
      && Views(newArtifacts) == AccumulatedViews(old(Views(newArtifacts)))
  {
    if mergeBase.Err? {
      return [LoadError(configYaml, branch, mergeBase.error)];
    }
    ghost var vs := Views(newArtifacts);
    EntriesViews(newArtifacts);
    errs := CheckNoTagsRemoved(mergeBase.value, newArtifacts);
    forall j | 0 <= j < |newArtifacts| ensures newArtifacts[j].View() == vs[j].(tags := newArtifacts[j].tags) { }
    AccumulatedTagsViews(newArtifacts, vs);
  }

  /** The artifacts a merge-base load yields: none when it fails. */
  function Loaded(mergeBase: Result<seq<Artifact>>): seq<Artifact>
  {
    if mergeBase.Ok? then mergeBase.value else []
  }

  // ---------------------------------------------------------------------------
  // The new artifacts after `checkNoTagsRemoved`

  /** `Entries` on the artifacts' fields: each one's identity and tags. */
  function EntriesOf(vs: seq<ArtifactFields>): (r: seq<(ArtifactIndex, seq<string>)>)
    ensures |r| == |vs|
    ensures forall j :: 0 <= j < |vs| ==> r[j] == (Key(vs[j]), vs[j].tags)
  {
    seq(|vs|, j requires 0 <= j < |vs| => (Key(vs[j]), vs[j].tags))
  }

  /** The fields of a list of artifacts give the list's entries. */
  lemma EntriesViews(arts: seq<Artifact>)
    ensures Entries(arts) == EntriesOf(Views(arts))
  {
    assert forall j | 0 <= j < |arts| :: IndexOf(arts[j]) == Key(arts[j].View());
  }

  /**
   * The fields of the new artifacts once `checkNoTagsRemoved` has accumulated them: the
   * first artifact with each identity holds the tags the accumulator gathered for that
   * identity; every other artifact is unchanged. Only tags change.
   */
  function AccumulatedViews(vs: seq<ArtifactFields>): (r: seq<ArtifactFields>)
    ensures |r| == |vs|
    ensures forall j | 0 <= j < |vs| :: r[j] == vs[j].(tags := r[j].tags)
    ensures forall j | 0 <= j < |vs| && FirstOf(EntriesOf(vs), j) != j :: r[j] == vs[j]
  {
    var entries := EntriesOf(vs);
    var c := AddAll(map[], entries);
    AddAllGrows(map[], entries);
    seq(|vs|, j requires 0 <= j < |vs| =>
      if FirstOf(entries, j) == j && entries[j].0 in c then vs[j].(tags := c[entries[j].0]) else vs[j])
  }

  /**
   * After the accumulation, the first artifact with an identity holds every tag that any
   * artifact with that identity had, and so all of that identity's tags are still listed.
   */
  lemma FirstHoldsAll(vs: seq<ArtifactFields>, j: nat, t: string)
    requires j < |vs| && t in vs[j].tags
    ensures t in AccumulatedViews(vs)[FirstOf(EntriesOf(vs), j)].tags
  {
    var entries := EntriesOf(vs);
    var f := FirstOf(entries, j);
    FirstOfSame(entries, j, f);
    AddAllGrows(map[], entries);
    assert entries[f].0 in KeysOf(entries);
  }

  /** `AccumulatedTags` on distinct artifacts is `AccumulatedViews` on their fields. */
  lemma AccumulatedTagsViews(arts: seq<Artifact>, vs: seq<ArtifactFields>)
    requires |vs| == |arts|
    requires forall i, j | 0 <= i < j < |arts| :: arts[i] != arts[j]
    requires forall j | 0 <= j < |arts| :: arts[j].View() == vs[j].(tags := arts[j].tags)
    requires AccumulatedTags(arts, EntriesOf(vs))
    ensures Views(arts) == AccumulatedViews(vs)
  {
    var entries := EntriesOf(vs);
    forall j | 0 <= j < |arts| ensures arts[j].View() == AccumulatedViews(vs)[j] {
      assert AccumulatedTagsAt(arts, entries, j);
      var f := FirstOf(entries, j);
      assert arts[j] == arts[f] <==> f == j;
      if f == j {
        AddAllGrows(map[], entries);
        assert entries[j].0 in KeysOf(entries);
      }
    }
  }

  // ---------------------------------------------------------------------------
  // Repository references

  /**
   * The reference `parseRepository` hands to the registry client: it needs a "/", and one
   * whose first segment names no host (has no ".") is a Docker Hub repository.
   */
  function PrepareRepository(repository: string): (r: Result<string>)
    ensures r.Ok? <==> '/' in repository
    ensures r.Err? ==> r.error == "invalid format"
    ensures r.Ok? ==> r.value == repository || r.value == "docker.io/" + repository
  {
    var parts := SplitN2(repository, '/');
    if |parts| != 2 then Err("invalid format")
    else if '.' !in parts[0] then Ok("docker.io/" + repository)
    else Ok(repository)
  }

  /** The first segment decides: a host name is kept as is, anything else is prefixed with "docker.io/". */
  lemma PrepareRepositoryOf(first: string, rest: string)
    requires '/' !in first
    ensures PrepareRepository(first + "/" + rest) ==
      Ok(if '.' in first then first + "/" + rest else "docker.io/" + first + "/" + rest)
  {
    SplitN2At(first, rest, '/');
    assert first + "/" + rest == first + ['/'] + rest;
    assert "docker.io/" + (first + "/" + rest) == "docker.io/" + first + "/" + rest;
  }

  /** A prepared reference is prepared already. */
  lemma PrepareRepositoryIdempotent(repository: string)
    requires PrepareRepository(repository).Ok?
    ensures PrepareRepository(PrepareRepository(repository).value) == PrepareRepository(repository)
  {
    var parts := SplitN2(repository, '/');
    PrepareRepositoryOf(parts[0], parts[1]);
    assert repository == parts[0] + "/" + parts[1];
    var prepared := PrepareRepository(repository).value;
    if '.' !in parts[0] {
      assert prepared == "docker.io" + "/" + repository;
      assert '.' in "docker.io" && '/' !in "docker.io";
      PrepareRepositoryOf("docker.io", repository);
    }
  }

  /** `parseRepository`: the prepared reference, which the registry client (`instantiate`) may still reject. */
  function ParseRepository(repository: string, instantiate: string -> Option<string>): (r: Result<string>)
    ensures r.Ok? ==> r == PrepareRepository(repository) && instantiate(r.value).None?
    ensures PrepareRepository(repository).Err? ==> r == PrepareRepository(repository)
  {
    var prepared :- PrepareRepository(repository);
    match instantiate(prepared)
    case Some(e) => Err("failed to instantiate repository: " + e)
    case None => Ok(prepared)
  }

  // ---------------------------------------------------------------------------
  // New tags

  /** The errors of the first loop of `validateNewTagsPullable`: new artifacts that could not be diffed. */
  function Failure(v: ArtifactFields, c: Contents): seq<string>
  {
    match Difference(v, c)
    case Err(e) => [DiffError(v.sourceArtifact, TargetName(v), e)]
    case Ok(_) => []
  }

  function Found(v: ArtifactFields, c: Contents): seq<(ArtifactIndex, seq<string>)>
  {
    match Difference(v, c)
    case Ok(Some(d)) => [d]
    case _ => []
  }

  function DiffFailures(news: seq<ArtifactFields>, c: Contents): seq<string>
  {
    if news == [] then [] else Failure(news[0], c) + DiffFailures(news[1..], c)
  }

  /** The difference artifacts of that loop: the new tags of each new artifact that has some, in order. */
  function NewTags(news: seq<ArtifactFields>, c: Contents): seq<(ArtifactIndex, seq<string>)>
  {
    if news == [] then [] else Found(news[0], c) + NewTags(news[1..], c)
  }

  /** Every tag of a new artifact that the old contents lack is among the new tags. */
  lemma {:induction false} NewTagsComplete(news: seq<ArtifactFields>, c: Contents, i: nat, t: string)
    requires i < |news| && t in news[i].tags && Difference(news[i], c).Ok?
    requires Key(news[i]) !in c || t !in c[Key(news[i])]
    ensures exists d :: d in NewTags(news, c) && d.0.sourceArtifact == news[i].sourceArtifact && t in d.1
  {
    if i == 0 {
      DifferenceSpec(news[0], c);
      var d := Difference(news[0], c).value.value;
      assert d in NewTags(news, c);
    } else {
      NewTagsComplete(news[1..], c, i - 1, t);
      var d :| d in NewTags(news[1..], c) && d.0.sourceArtifact == news[i].sourceArtifact && t in d.1;
      assert d in NewTags(news, c);
    }
  }

  /** What the second loop does for one tag: a reference that failed to parse, or a pull. */
  datatype Attempt = ParseFailed(source: string, error: string) | Pull(source: string, reference: string, tag: string)

  const AppCoHost := "dp.apps.rancher.io"

  function PullsOf(source: string, reference: string, tags: seq<string>): (r: seq<Attempt>)
    ensures |r| == |tags|
    ensures forall i :: 0 <= i < |tags| ==> r[i] == Pull(source, reference, tags[i])
  {
    seq(|tags|, i requires 0 <= i < |tags| => Pull(source, reference, tags[i]))
  }

  /** The attempts of the second loop, in order: application-collection sources are never pulled. */
  function Attempts(diffs: seq<(ArtifactIndex, seq<string>)>, instantiate: string -> Option<string>): seq<Attempt>
  {
    if diffs == [] then [] else AttemptsOf(diffs[0], instantiate) + Attempts(diffs[1..], instantiate)
  }

  /**
   * Every pull is of a new tag of a source outside the application collection, from its
   * prepared reference; every such tag is pulled.
   */
  lemma {:induction false} AttemptsSpec(diffs: seq<(ArtifactIndex, seq<string>)>, instantiate: string -> Option<string>)
    ensures forall a :: a in Attempts(diffs, instantiate) && a.Pull? ==>
      && !HasPrefix(a.source, AppCoHost)
      && Ok(a.reference) == ParseRepository(a.source, instantiate)
      && exists d :: d in diffs && d.0.sourceArtifact == a.source && a.tag in d.1
    ensures forall d, t :: d in diffs && t in d.1 && !HasPrefix(d.0.sourceArtifact, AppCoHost)
                           && ParseRepository(d.0.sourceArtifact, instantiate).Ok? ==>
      Pull(d.0.sourceArtifact, ParseRepository(d.0.sourceArtifact, instantiate).value, t) in Attempts(diffs, instantiate)
  {
    if diffs != [] {
      AttemptsSpec(diffs[1..], instantiate);
      var source := diffs[0].0.sourceArtifact;
      var here := AttemptsOf(diffs[0], instantiate);
      forall a | a in here && a.Pull?
        ensures && !HasPrefix(a.source, AppCoHost)
                && Ok(a.reference) == ParseRepository(a.source, instantiate)
                && exists d :: d in diffs && d.0.sourceArtifact == a.source && a.tag in d.1
      {
        var j :| 0 <= j < |here| && here[j] == a;
        assert diffs[0] in diffs && diffs[0].1[j] in diffs[0].1;
      }
      forall d, t | d in diffs && t in d.1 && !HasPrefix(d.0.sourceArtifact, AppCoHost)
                    && ParseRepository(d.0.sourceArtifact, instantiate).Ok?
        ensures Pull(d.0.sourceArtifact, ParseRepository(d.0.sourceArtifact, instantiate).value, t) in Attempts(diffs, instantiate)
      {
        if d != diffs[0] {
          assert d in diffs[1..];
        } else {
          var j :| 0 <= j < |d.1| && d.1[j] == t;
          assert here[j] == Pull(d.0.sourceArtifact, ParseRepository(d.0.sourceArtifact, instantiate).value, t);
        }
      }
    }
  }

  /** The error of one attempt; `pull(reference, tag)` is the copy into the local store, or its error. */
  function AttemptErrors(a: Attempt, pull: (string, string) -> Option<string>): seq<string>
  {
    match a
    case ParseFailed(source, e) => ["failed to parse " + source + " as repository: " + e]
    case Pull(source, reference, tag) =>
      match pull(reference, tag)
      case Some(e) => ["failed to pull " + source + ":" + tag + ": " + e]
      case None => []
  }

  function PullErrors(attempts: seq<Attempt>, pull: (string, string) -> Option<string>): seq<string>
  {
    if attempts == [] then [] else AttemptErrors(attempts[0], pull) + PullErrors(attempts[1..], pull)
  }

  lemma {:induction false} PullErrorsAppend(a: seq<Attempt>, b: seq<Attempt>, pull: (string, string) -> Option<string>)
    ensures PullErrors(a + b, pull) == PullErrors(a, pull) + PullErrors(b, pull)
  {
    if a == [] {
      assert a + b == b;
    } else {
      assert (a + b)[1..] == a[1..] + b;
      PullErrorsAppend(a[1..], b, pull);
    }
  }

  /** The attempts for one difference artifact. */
  function AttemptsOf(d: (ArtifactIndex, seq<string>), instantiate: string -> Option<string>): seq<Attempt>
  {
    match ParseRepository(d.0.sourceArtifact, instantiate)
    case Err(e) => [ParseFailed(d.0.sourceArtifact, e)]
    case Ok(reference) => if HasPrefix(d.0.sourceArtifact, AppCoHost) then [] else PullsOf(d.0.sourceArtifact, reference, d.1)
  }

  /** The innermost loop of `validateNewTagsPullable`: every tag pulled from the reference. */
  method PullTags(errs: seq<string>, source: string, reference: string, tags: seq<string>,
                  pull: (string, string) -> Option<string>)
    returns (r: seq<string>)
    ensures r == errs + PullErrors(PullsOf(source, reference, tags), pull)
  {
    ghost var pulls := PullsOf(source, reference, tags);
    r := errs;
    var j := 0;
    while j < |tags|
      invariant 0 <= j <= |tags|
      invariant r == errs + PullErrors(pulls[..j], pull)
    {
      assert pulls[..j + 1] == pulls[..j] + [pulls[j]];
      PullErrorsAppend(pulls[..j], [pulls[j]], pull);
      assert PullErrors([pulls[j]], pull) == AttemptErrors(pulls[j], pull) + PullErrors([], pull);
      var err := pull(reference, tags[j]);
      if err.Some? {
        r := r + ["failed to pull " + source + ":" + tags[j] + ": " + err.value];
      }
      j := j + 1;
    }
    assert pulls[..j] == pulls;
  }

  /** The body of the second loop of `validateNewTagsPullable`, for one difference artifact. */
  method PullArtifact(errs: seq<string>, d: (ArtifactIndex, seq<string>), instantiate: string -> Option<string>,
                      pull: (string, string) -> Option<string>)
    returns (r: seq<string>)
    ensures r == errs + PullErrors(AttemptsOf(d, instantiate), pull)
  {
    var source := d.0.sourceArtifact;
    var repo := ParseRepository(source, instantiate);
    if repo.Err? {
      assert AttemptsOf(d, instantiate) == [ParseFailed(source, repo.error)];
      assert PullErrors([ParseFailed(source, repo.error)], pull) == AttemptErrors(ParseFailed(source, repo.error), pull) + PullErrors([], pull);
      r := errs + ["failed to parse " + source + " as repository: " + repo.error];
    } else if !HasPrefix(source, AppCoHost) {
      r := PullTags(errs, source, repo.value, d.1, pull);
    } else {
      r := errs;
      assert errs + [] == errs;
    }
  }

  lemma AttemptsStep(diffs: seq<(ArtifactIndex, seq<string>)>, i: nat, instantiate: string -> Option<string>,
                     pull: (string, string) -> Option<string>)
    requires i < |diffs|
    ensures PullErrors(Attempts(diffs[i..], instantiate), pull)
         == PullErrors(AttemptsOf(diffs[i], instantiate), pull) + PullErrors(Attempts(diffs[i + 1..], instantiate), pull)
  {
    assert diffs[i..][1..] == diffs[i + 1..];
    PullErrorsAppend(AttemptsOf(diffs[i], instantiate), Attempts(diffs[i + 1..], instantiate), pull);
  }

  /** The second loop of `validateNewTagsPullable`: each difference artifact's tags are pulled. */
  method PullNewTags(diffs: seq<(ArtifactIndex, seq<string>)>, instantiate: string -> Option<string>,
                     pull: (string, string) -> Option<string>)
    returns (errs: seq<string>)
    ensures errs == PullErrors(Attempts(diffs, instantiate), pull)
  {
    ghost var total := PullErrors(Attempts(diffs, instantiate), pull);
    errs := [];
    var i := 0;
    while i < |diffs|
      invariant 0 <= i <= |diffs|
      invariant total == errs + PullErrors(Attempts(diffs[i..], instantiate), pull)
    {
      AttemptsStep(diffs, i, instantiate, pull);
      ghost var here, rest := PullErrors(AttemptsOf(diffs[i], instantiate), pull), PullErrors(Attempts(diffs[i + 1..], instantiate), pull);
      assert errs + (here + rest) == (errs + here) + rest;
      errs := PullArtifact(errs, diffs[i], instantiate, pull);
      i := i + 1;
    }
    assert diffs[i..] == [];
    assert errs + [] == errs;
  }

  /** The body of the first loop of `validateNewTagsPullable`, for one new artifact. */
  method DiffNew(accumulator: ArtifactAccumulator, newArtifact: Artifact, ghost v: ArtifactFields, ghost c: Contents,
                 errs: seq<string>, found: seq<(ArtifactIndex, seq<string>)>)
    returns (errs': seq<string>, found': seq<(ArtifactIndex, seq<string>)>)
    requires accumulator.Valid() && v == newArtifact.View() && c == accumulator.Contents()
    ensures errs' == errs + Failure(v, c)
    ensures found' == found + Found(v, c)
  {
    errs', found' := errs, found;
    var diffArtifact := Diff(accumulator, newArtifact);
    if diffArtifact.Err? {
      errs' := errs + [DiffError(newArtifact.sourceArtifact, newArtifact.TargetArtifactName(), diffArtifact.error)];
      assert found' == found + [];
    } else if diffArtifact.value.Some? {
      found' := found + [diffArtifact.value.value];
      assert errs' == errs + [];
    } else {
      assert errs' == errs + [] && found' == found + [];
    }
  }

  lemma FailuresStep(news: seq<ArtifactFields>, c: Contents, i: nat, errs: seq<string>)
    requires i < |news|
    requires DiffFailures(news, c) == errs + DiffFailures(news[i..], c)
    ensures DiffFailures(news, c) == (errs + Failure(news[i], c)) + DiffFailures(news[i + 1..], c)
  {
    var tail := news[i..];
    assert tail[0] == news[i] && tail[1..] == news[i + 1..];
    var here, rest := Failure(news[i], c), DiffFailures(news[i + 1..], c);
    assert DiffFailures(tail, c) == here + rest;
    assert errs + (here + rest) == (errs + here) + rest;
  }

  lemma NewTagsStep(news: seq<ArtifactFields>, c: Contents, i: nat, found: seq<(ArtifactIndex, seq<string>)>)
    requires i < |news|
    requires NewTags(news, c) == found + NewTags(news[i..], c)
    ensures NewTags(news, c) == (found + Found(news[i], c)) + NewTags(news[i + 1..], c)
  {
    var tail := news[i..];
    assert tail[0] == news[i] && tail[1..] == news[i + 1..];
    var here, rest := Found(news[i], c), NewTags(news[i + 1..], c);
    assert NewTags(tail, c) == here + rest;
    assert found + (here + rest) == (found + here) + rest;
  }

  /** The first loop of `validateNewTagsPullable`, against an accumulator it leaves as it is. */
  method CollectNewTags(accumulator: ArtifactAccumulator, newArtifacts: seq<Artifact>)
    returns (errs: seq<string>, artifactsWithNewTags: seq<(ArtifactIndex, seq<string>)>)
    requires accumulator.Valid()
    ensures errs == DiffFailures(Views(newArtifacts), accumulator.Contents())
    ensures artifactsWithNewTags == NewTags(Views(newArtifacts), accumulator.Contents())
  {
    ghost var news := Views(newArtifacts);
    ghost var c := accumulator.Contents();
    ghost var failures, found := DiffFailures(news, c), NewTags(news, c);
    artifactsWithNewTags := [];
    errs := [];
    var i := 0;
    while i < |newArtifacts|
      invariant 0 <= i <= |newArtifacts|
      invariant accumulator.Valid() && accumulator.Contents() == c && Views(newArtifacts) == news
      invariant failures == errs + DiffFailures(news[i..], c)
      invariant found == artifactsWithNewTags + NewTags(news[i..], c)
    {
      FailuresStep(news, c, i, errs);
      NewTagsStep(news, c, i, artifactsWithNewTags);
      var newArtifact := newArtifacts[i];
      errs, artifactsWithNewTags := DiffNew(accumulator, newArtifact, news[i], c, errs, artifactsWithNewTags);
      i := i + 1;
    }
    assert news[i..] == [];
    assert errs + [] == errs && artifactsWithNewTags + [] == artifactsWithNewTags;
  }

  /** What `validateNewTagsPullable` reports against a merge base: the diff failures, then the failed pulls of every new tag. */
  function NewTagsPullableErrors(news: seq<ArtifactFields>, c: Contents, instantiate: string -> Option<string>,
                                 pull: (string, string) -> Option<string>): seq<string>
  {
    DiffFailures(news, c) + PullErrors(Attempts(NewTags(news, c), instantiate), pull)
  }

  /** The two loops of `validateNewTagsPullable` against an accumulator they leave as it is. */
  method DiffAndPull(accumulator: ArtifactAccumulator, newArtifacts: seq<Artifact>,
                     instantiate: string -> Option<string>, pull: (string, string) -> Option<string>)
    returns (errs: seq<string>)
    requires accumulator.Valid()
    ensures errs == NewTagsPullableErrors(Views(newArtifacts), accumulator.Contents(), instantiate, pull)
  {
    var failures, found := CollectNewTags(accumulator, newArtifacts);
    var pullErrs := PullNewTags(found, instantiate, pull);
    errs := failures + pullErrs;
  }

  /**
   * The body of `validateNewTagsPullable` once the merge-base artifacts are loaded: they
   * are accumulated, each new artifact is diffed against them, and the new tags are
   * pulled. The temporary store the pulls copy into is not part of this model.
   */
  method PullNewTagsAgainst(mergeBase: seq<Artifact>, newArtifacts: seq<Artifact>,
                            instantiate: string -> Option<string>, pull: (string, string) -> Option<string>)
    returns (errs: seq<string>)
    requires forall a :: a in mergeBase ==> a !in newArtifacts
    modifies mergeBase`tags
    ensures var c := AddAll(map[], old(Entries(mergeBase)));
      var news := old(Views(newArtifacts));
      errs == NewTagsPullableErrors(news, c, instantiate, pull)
  {
    var accumulator := AccumulateMergeBase(mergeBase, newArtifacts);
    errs := DiffAndPull(accumulator, newArtifacts, instantiate, pull);
  }

  /** `validateNewTagsPullable`: a merge base that fails to load is the only error. */
  method ValidateNewTagsPullable(configYaml: string, branch: string, mergeBase: Result<seq<Artifact>>,
                                 newArtifacts: seq<Artifact>, instantiate: string -> Option<string>,
                                 pull: (string, string) -> Option<string>)
    returns (errs: seq<string>)
    requires mergeBase.Ok? ==> forall a :: a in mergeBase.value ==> a !in newArtifacts
    modifies (if mergeBase.Ok? then mergeBase.value else [])`tags
    ensures mergeBase.Err? ==> errs == [LoadError(configYaml, branch, mergeBase.error)]
    ensures mergeBase.Ok? ==>
      var c := AddAll(map[], old(Entries(mergeBase.value)));
      var news := old(Views(newArtifacts));
      errs == NewTagsPullableErrors(news, c, instantiate, pull)
  {
    if mergeBase.Err? {
      return [LoadError(configYaml, branch, mergeBase.error)];
    }
    errs := PullNewTagsAgainst(mergeBase.value, newArtifacts, instantiate, pull);
  }

  // ---------------------------------------------------------------------------
  // Docker Hub repositories

  /** Whether a new artifact is checked against Docker Hub: unknown to the merge base, and targeting Docker Hub's rancher namespace. */
  predicate DockerHubCandidate(v: ArtifactFields, known: set<ArtifactIndex>)
  {
    Key(v) !in known && (v.targetRepositories == [] || "docker.io/rancher" in v.targetRepositories)
  }

  function DockerHubCandidates(news: seq<ArtifactFields>, known: set<ArtifactIndex>): seq<ArtifactFields>
  {
    if news == [] then []
    else (if DockerHubCandidate(news[0], known) then [news[0]] else []) + DockerHubCandidates(news[1..], known)
  }

  /** The candidates are exactly the new artifacts that qualify, in their order. */
  lemma {:induction false} DockerHubCandidatesSpec(news: seq<ArtifactFields>, known: set<ArtifactIndex>)
    ensures forall v :: v in DockerHubCandidates(news, known) <==> v in news && DockerHubCandidate(v, known)
  {
    if news != [] {
      DockerHubCandidatesSpec(news[1..], known);
      assert forall w :: w in news <==> w == news[0] || w in news[1..];
    }
  }

  function MissingError(name: string): string
  {
    "repository rancher/" + name + " does not exist on dockerhub"
  }

  /** One error per candidate whose target name is not an existing repository, in order. */
  function MissingRepositories(candidates: seq<ArtifactFields>, existing: set<string>): seq<string>
  {
    if candidates == [] then []
    else
      (if TargetName(candidates[0]) !in existing then [MissingError(TargetName(candidates[0]))] else [])
      + MissingRepositories(candidates[1..], existing)
  }

  /** No error exactly when every candidate's repository exists; each error names a missing one. */
  lemma {:induction false} MissingRepositoriesSpec(candidates: seq<ArtifactFields>, existing: set<string>)
    ensures MissingRepositories(candidates, existing) == [] <==> forall v :: v in candidates ==> TargetName(v) in existing
    ensures forall e :: e in MissingRepositories(candidates, existing) <==>
      exists v :: v in candidates && TargetName(v) !in existing && e == MissingError(TargetName(v))
  {
    if candidates != [] {
      MissingRepositoriesSpec(candidates[1..], existing);
      assert forall w :: w in candidates <==> w == candidates[0] || w in candidates[1..];
    }
  }

  /** The first loop of `validateDockerHubRepoExists`, against an accumulator it leaves as it is. */
  method SelectCandidates(accumulator: ArtifactAccumulator, newArtifacts: seq<Artifact>) returns (candidates: seq<ArtifactFields>)
    requires accumulator.Valid()
    ensures candidates == DockerHubCandidates(Views(newArtifacts), accumulator.Contents().Keys)
  {
    ghost var news := Views(newArtifacts);
    ghost var known := accumulator.Contents().Keys;
    assert accumulator.mapping.Keys == known;
    candidates := [];
    var i := 0;
    while i < |newArtifacts|
      invariant 0 <= i <= |newArtifacts|
      invariant DockerHubCandidates(news, known) == candidates + DockerHubCandidates(news[i..], known)
    {
      assert news[i..][1..] == news[i + 1..];
      var newArtifact := newArtifacts[i];
      assert newArtifact.View() == news[i];
      if !accumulator.Contains(newArtifact)
         && !(|newArtifact.targetRepositories| > 0 && "docker.io/rancher" !in newArtifact.targetRepositories)
      {
        candidates := candidates + [newArtifact.View()];
      }
      i := i + 1;
    }
    assert news[i..] == [];
    assert candidates + [] == candidates;
  }

  /** The last loop of `validateDockerHubRepoExists`: each candidate's target name is looked up. */
  method ReportMissingRepositories(candidates: seq<ArtifactFields>, existing: set<string>) returns (errs: seq<string>)
    ensures errs == MissingRepositories(candidates, existing)
  {
    errs := [];
    var j := 0;
    while j < |candidates|
      invariant 0 <= j <= |candidates|
      invariant MissingRepositories(candidates, existing) == errs + MissingRepositories(candidates[j..], existing)
    {
      assert candidates[j..][1..] == candidates[j + 1..];
      var targetArtifactName := candidates[j].specifiedTargetArtifactName;
      if targetArtifactName == "" {
        targetArtifactName := candidates[j].defaultTargetArtifactName;
      }
      if targetArtifactName !in existing {
        errs := errs + [MissingError(targetArtifactName)];
      }
      j := j + 1;
    }
    assert candidates[j..] == [];
    assert errs + [] == errs;
  }

  /**
   * `validateDockerHubRepoExists`: without candidates the Docker Hub listing is not
   * consulted; otherwise its failure, or each candidate missing from it, is an error.
   */
  method ValidateDockerHubRepoExists(configYaml: string, branch: string, mergeBase: Result<seq<Artifact>>,
                                     newArtifacts: seq<Artifact>, existingRepositories: Result<set<string>>)
    returns (errs: seq<string>)
    requires mergeBase.Ok? ==> forall a :: a in mergeBase.value ==> a !in newArtifacts
    modifies (if mergeBase.Ok? then mergeBase.value else [])`tags
    ensures mergeBase.Err? ==> errs == [LoadError(configYaml, branch, mergeBase.error)]
    ensures mergeBase.Ok? ==>
      var candidates := DockerHubCandidates(old(Views(newArtifacts)), AddAll(map[], old(Entries(mergeBase.value))).Keys);
      && (candidates == [] ==> errs == [])
      && (candidates != [] && existingRepositories.Err? ==>
            errs == ["failed to fetch existing repositories from dockerhub: " + existingRepositories.error])
      && (candidates != [] && existingRepositories.Ok? ==> errs == MissingRepositories(candidates, existingRepositories.value))
  {
    if mergeBase.Err? {
      return [LoadError(configYaml, branch, mergeBase.error)];
    }
    var accumulator := AccumulateMergeBase(mergeBase.value, newArtifacts);
    var candidates := SelectCandidates(accumulator, newArtifacts);
    if |candidates| == 0 {
      return [];
    }
    if existingRepositories.Err? {
      return ["failed to fetch existing repositories from dockerhub: " + existingRepositories.error];
    }
    errs := ReportMissingRepositories(candidates, existingRepositories.value);
  }

  /** What `validateDockerHubRepoExists` reports once its candidates are selected. */
  function RepoExistsErrors(candidates: seq<ArtifactFields>, existingRepositories: Result<set<string>>): seq<string>
  {
    if candidates == [] then []
    else if existingRepositories.Err? then
      ["failed to fetch existing repositories from dockerhub: " + existingRepositories.error]
    else MissingRepositories(candidates, existingRepositories.value)
  }

  // ---------------------------------------------------------------------------
  // The verdict

  /** `validate`'s result: a failure joining "validation failed" and every error, one per line, when there is any. */
  function ValidationResult(errs: seq<string>): (r: Outcome)
    ensures r.Pass? <==> errs == []
    ensures r.Fail? ==> Split(r.error, '\n')[0] == "validation failed"
  {
    if |errs| > 0 then
      assert Join(["validation failed"] + errs, '\n') == "validation failed" + ['\n'] + Join(errs, '\n') by {
        assert (["validation failed"] + errs)[1..] == errs;
      }
      assert '\n' !in "validation failed";
      SplitNoSep("validation failed", '\n');
      SplitAround("validation failed", Join(errs, '\n'), '\n');
      Fail(Join(["validation failed"] + errs, '\n'))
    else Pass
  }

  /** The identities of a list of artifact fields, in order. */
  function Keys(vs: seq<ArtifactFields>): (r: seq<ArtifactIndex>)
    ensures |r| == |vs| && forall i :: 0 <= i < |vs| ==> r[i] == Key(vs[i])
  {
    seq(|vs|, i requires 0 <= i < |vs| => Key(vs[i]))
  }

  /** A merge-base load as the fields of its artifacts, or its error. */
  function LoadedViews(load: Result<seq<Artifact>>): Result<seq<ArtifactFields>>
    reads Loaded(load)
  {
    if load.Ok? then Ok(Views(load.value)) else Err(load.error)
  }

  /** `validateNoTagsRemoved`'s errors against a merge-base load, for the new artifacts' fields `vs`. */
  function RemovedOutcome(configYaml: string, branch: string, load: Result<seq<ArtifactFields>>,
                          vs: seq<ArtifactFields>): seq<string>
  {
    if load.Err? then [LoadError(configYaml, branch, load.error)]
    else RemovedErrors(load.value, AddAll(map[], EntriesOf(vs)))
  }

  /** `validateNewTagsPullable`'s errors against a merge-base load, for the new artifacts' fields `news`. */
  function PullableOutcome(configYaml: string, branch: string, load: Result<seq<ArtifactFields>>,
                           news: seq<ArtifactFields>, instantiate: string -> Option<string>,
                           pull: (string, string) -> Option<string>): seq<string>
  {
    if load.Err? then [LoadError(configYaml, branch, load.error)]
    else NewTagsPullableErrors(news, AddAll(map[], EntriesOf(load.value)), instantiate, pull)
  }

  /** `validateDockerHubRepoExists`'s errors against a merge-base load, for the new artifacts' fields `news`. */
  function DockerHubOutcome(configYaml: string, branch: string, load: Result<seq<ArtifactFields>>,
                            news: seq<ArtifactFields>, existingRepositories: Result<set<string>>): seq<string>
  {
    if load.Err? then [LoadError(configYaml, branch, load.error)]
    else RepoExistsErrors(DockerHubCandidates(news, AddAll(map[], EntriesOf(load.value)).Keys), existingRepositories)
  }

  /**
   * `validate`: the four checks in order, each merge-base check on its own load of the
   * merge-base configuration, and one verdict over all their errors. `checkNoTagsRemoved`
   * accumulates the new artifacts in place, so the two later checks see the first artifact
   * of each identity holding that identity's every tag.
   */
  method Validate(configYaml: string, branch: string, artifacts: seq<Artifact>,
                  loadForRemoved: Result<seq<Artifact>>, loadForPullable: Result<seq<Artifact>>,
                  loadForDockerHub: Result<seq<Artifact>>,
                  instantiate: string -> Option<string>, pull: (string, string) -> Option<string>,
                  existingRepositories: Result<set<string>>)
    returns (r: Outcome)
    requires forall i, j | 0 <= i < j < |artifacts| :: artifacts[i] != artifacts[j]
    requires forall a | a in Loaded(loadForRemoved) :: a !in artifacts
    requires forall a | a in Loaded(loadForPullable) :: a !in artifacts
    requires forall a | a in Loaded(loadForDockerHub) :: a !in artifacts && a !in Loaded(loadForPullable)
    modifies artifacts`tags, Loaded(loadForPullable)`tags, Loaded(loadForDockerHub)`tags
    ensures Views(artifacts) == if loadForRemoved.Ok? then AccumulatedViews(old(Views(artifacts))) else old(Views(artifacts))
    ensures var vs := old(Views(artifacts));
      var news := if loadForRemoved.Ok? then AccumulatedViews(vs) else vs;
      r == ValidationResult(
             DuplicateErrors(configYaml, Repeated(Keys(vs), {}))
             + RemovedOutcome(configYaml, branch, old(LoadedViews(loadForRemoved)), vs)
             + PullableOutcome(configYaml, branch, old(LoadedViews(loadForPullable)), news, instantiate, pull)
             + DockerHubOutcome(configYaml, branch, old(LoadedViews(loadForDockerHub)), news, existingRepositories))
  {
    ghost var vs := Views(artifacts);
    ghost var removedLoad, pullableLoad, dockerHubLoad :=
      LoadedViews(loadForRemoved), LoadedViews(loadForPullable), LoadedViews(loadForDockerHub);
    var duplicates := ValidateSourceArtifactAndTargetArtifactName(configYaml, artifacts);
    assert Views(artifacts) == vs;
    assert LoadedViews(loadForRemoved) == removedLoad;
    assert LoadedViews(loadForPullable) == pullableLoad && LoadedViews(loadForDockerHub) == dockerHubLoad;
    var removed := CheckRemoved(configYaml, branch, loadForRemoved, artifacts, loadForPullable, loadForDockerHub);
    var pullable, dockerHub := PullableAndDockerHub(configYaml, branch, artifacts, loadForPullable, loadForDockerHub,
                                                    instantiate, pull, existingRepositories);
    r := ValidationResult(duplicates + removed + pullable + dockerHub);
  }

  /** `validateNoTagsRemoved`, which changes only the new artifacts' tags and so leaves the other two loads untouched. */
  method CheckRemoved(configYaml: string, branch: string, loadForRemoved: Result<seq<Artifact>>,
                      artifacts: seq<Artifact>, loadForPullable: Result<seq<Artifact>>,
                      loadForDockerHub: Result<seq<Artifact>>)
    returns (removed: seq<string>)
    requires forall i, j | 0 <= i < j < |artifacts| :: artifacts[i] != artifacts[j]
    requires forall a | a in Loaded(loadForRemoved) :: a !in artifacts
    requires forall a | a in Loaded(loadForPullable) :: a !in artifacts
    requires forall a | a in Loaded(loadForDockerHub) :: a !in artifacts
    modifies artifacts`tags
    ensures LoadedViews(loadForPullable) == old(LoadedViews(loadForPullable))
    ensures LoadedViews(loadForDockerHub) == old(LoadedViews(loadForDockerHub))
    ensures Views(artifacts) == if loadForRemoved.Ok? then AccumulatedViews(old(Views(artifacts))) else old(Views(artifacts))
    ensures removed == RemovedOutcome(configYaml, branch, old(LoadedViews(loadForRemoved)), old(Views(artifacts)))
  {
    ghost var pullable, dockerHub := Loaded(loadForPullable), Loaded(loadForDockerHub);
    ghost var pullableViews, dockerHubViews := Views(pullable), Views(dockerHub);
    ghost var vs, removedLoad := Views(artifacts), LoadedViews(loadForRemoved);
    removed := ValidateNoTagsRemoved(configYaml, branch, loadForRemoved, artifacts);
    assert removed == RemovedOutcome(configYaml, branch, removedLoad, vs);
    forall j | 0 <= j < |pullable| ensures pullable[j].View() == pullableViews[j] {
      assert pullable[j] !in artifacts;
    }
    forall j | 0 <= j < |dockerHub| ensures dockerHub[j].View() == dockerHubViews[j] {
      assert dockerHub[j] !in artifacts;
    }
    assert Views(pullable) == pullableViews && Views(dockerHub) == dockerHubViews;
  }

  /**
   * `validateNewTagsPullable` on its load of the merge base, which leaves the new artifacts
   * and the Docker Hub check's load untouched.
   */
  method CheckPullable(configYaml: string, branch: string, loadForPullable: Result<seq<Artifact>>,
                       artifacts: seq<Artifact>, loadForDockerHub: Result<seq<Artifact>>,
                       instantiate: string -> Option<string>, pull: (string, string) -> Option<string>)
    returns (pullable: seq<string>)
    requires forall a | a in Loaded(loadForPullable) :: a !in artifacts && a !in Loaded(loadForDockerHub)
    modifies Loaded(loadForPullable)`tags
    ensures Views(artifacts) == old(Views(artifacts))
    ensures LoadedViews(loadForDockerHub) == old(LoadedViews(loadForDockerHub))
    ensures pullable == PullableOutcome(configYaml, branch, old(LoadedViews(loadForPullable)), old(Views(artifacts)),
                                        instantiate, pull)
  {
    ghost var news := Views(artifacts);
    ghost var loaded, dockerHub := Loaded(loadForPullable), Loaded(loadForDockerHub);
    ghost var dockerHubViews := Views(dockerHub);
    EntriesViews(loaded);
    pullable := ValidateNewTagsPullable(configYaml, branch, loadForPullable, artifacts, instantiate, pull);
    forall j | 0 <= j < |artifacts| ensures artifacts[j].View() == news[j] {
      assert artifacts[j] !in loaded;
    }
    assert Views(artifacts) == news;
    forall j | 0 <= j < |dockerHub| ensures dockerHub[j].View() == dockerHubViews[j] {
      assert dockerHub[j] !in loaded;
    }
    assert Views(dockerHub) == dockerHubViews;
  }

  /** `validateDockerHubRepoExists` on its load of the merge base, which leaves the new artifacts untouched. */
  method CheckDockerHub(configYaml: string, branch: string, loadForDockerHub: Result<seq<Artifact>>,
                        artifacts: seq<Artifact>, existingRepositories: Result<set<string>>)
    returns (dockerHub: seq<string>)
    requires forall a | a in Loaded(loadForDockerHub) :: a !in artifacts
    modifies Loaded(loadForDockerHub)`tags
    ensures Views(artifacts) == old(Views(artifacts))
    ensures dockerHub == DockerHubOutcome(configYaml, branch, old(LoadedViews(loadForDockerHub)), old(Views(artifacts)),
                                          existingRepositories)
  {
    ghost var news := Views(artifacts);
    ghost var loaded := Loaded(loadForDockerHub);
    EntriesViews(loaded);
    dockerHub := ValidateDockerHubRepoExists(configYaml, branch, loadForDockerHub, artifacts, existingRepositories);
    forall j | 0 <= j < |artifacts| ensures artifacts[j].View() == news[j] {
      assert artifacts[j] !in loaded;
    }
    assert Views(artifacts) == news;
  }

  /** `validate`'s last two checks, which leave the new artifacts as they find them. */
  method PullableAndDockerHub(configYaml: string, branch: string, artifacts: seq<Artifact>,
                              loadForPullable: Result<seq<Artifact>>, loadForDockerHub: Result<seq<Artifact>>,
                              instantiate: string -> Option<string>, pull: (string, string) -> Option<string>,
                              existingRepositories: Result<set<string>>)
    returns (pullable: seq<string>, dockerHub: seq<string>)
    requires forall a | a in Loaded(loadForPullable) :: a !in artifacts
    requires forall a | a in Loaded(loadForDockerHub) :: a !in artifacts && a !in Loaded(loadForPullable)
    modifies Loaded(loadForPullable)`tags, Loaded(loadForDockerHub)`tags
    ensures Views(artifacts) == old(Views(artifacts))
    ensures pullable == PullableOutcome(configYaml, branch, old(LoadedViews(loadForPullable)), old(Views(artifacts)),
                                        instantiate, pull)
    ensures dockerHub == DockerHubOutcome(configYaml, branch, old(LoadedViews(loadForDockerHub)), old(Views(artifacts)),
                                          existingRepositories)
  {
    pullable := CheckPullable(configYaml, branch, loadForPullable, artifacts, loadForDockerHub, instantiate, pull);
    dockerHub := CheckDockerHub(configYaml, branch, loadForDockerHub, artifacts, existingRepositories);
  }
}
