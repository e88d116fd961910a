/**
 * What the autoupdate strategies have in common: the references that map a found image
 * onto an entry of the mirror configuration, the image `NewImage` builds from a found
 * image, and the repository-to-tags map that the Helm and images-file strategies fill.
 */
module Strategies {
  import opened Wrappers
  import opened Text
  import opened Dynamic
  import opened Artifacts
  import opened Images
  import opened Accumulator

  /** `AutoupdateImageRef`: the configuration entry (source and target name) an update image goes to. */
  datatype ImageRef = ImageRef(sourceImage: string, targetImageName: string)

  /**
   * The image `NewImage(source, tags, target, nil, nil)` returns: defaults set from the source
   * reference, the target name applied, nothing excluded and no target repositories.
   */
  function NewImage(source: string, tags: seq<string>, target: string): (r: Result<ArtifactFields>)
    ensures r.Ok? <==> '/' in source
    ensures r.Err? ==>
      r.error == "source image split into " + NatToString(|Split(source, '/')|) + " parts (>=2 parts expected)"
    ensures r.Ok? ==>
      && r.value.sourceArtifact == source
      && r.value.tags == tags
      && Ok(r.value.defaultTargetArtifactName) == DefaultTargetName(source)
      && TargetName(r.value) == (if target != "" then target else r.value.defaultTargetArtifactName)
      && !r.value.excludeAllTags && r.value.excludedTags == {}
      && r.value.targetRepositories == []
  {
    DefaultTargetNameDefined(source);
    DoNotMirrorCases(DNil);
    NameRoundTrip(target, if '/' in source then DefaultTargetName(source).value else "");
    var d :- ImageDefaults(source, DNil);
    Ok(ArtifactFields(DNil, source, d.0, d.1.excludeAll, d.1.excluded, StoredName(target, d.0), tags, []))
  }

  // ---------------------------------------------------------------------------
  // Fan-out: one image per configured reference, all with the same tags

  /**
   * The loop that builds one image per configured reference with the given tags; the first
   * reference that cannot be built aborts, with its error wrapped by `wrap`.
   */
  method FanOut(refs: seq<ImageRef>, tags: seq<string>, wrap: (ImageRef, string) -> string)
    returns (r: Result<seq<ArtifactFields>>)
    ensures r.Ok? <==> forall i :: 0 <= i < |refs| ==> '/' in refs[i].sourceImage
    ensures r.Ok? ==> |r.value| == |refs|
    ensures r.Ok? ==> forall i :: 0 <= i < |refs| ==>
      Ok(r.value[i]) == NewImage(refs[i].sourceImage, tags, refs[i].targetImageName)
    ensures r.Err? ==>
      exists k :: && 0 <= k < |refs|
                  && '/' !in refs[k].sourceImage
                  && (forall j :: 0 <= j < k ==> '/' in refs[j].sourceImage)
                  && r.error == wrap(refs[k], NewImage(refs[k].sourceImage, tags, refs[k].targetImageName).error)
  {
    var images: seq<ArtifactFields> := [];
    var i := 0;
    while i < |refs|
      invariant 0 <= i <= |refs|
      invariant |images| == i
      invariant forall j :: 0 <= j < i ==> '/' in refs[j].sourceImage
      invariant forall j :: 0 <= j < i ==>
        Ok(images[j]) == NewImage(refs[j].sourceImage, tags, refs[j].targetImageName)
    {
      var image := NewImage(refs[i].sourceImage, tags, refs[i].targetImageName);
      if image.Err? {
        return Err(wrap(refs[i], image.error));
      }
      images := images + [image.value];
      i := i + 1;
    }
    return Ok(images);
  }

  // ---------------------------------------------------------------------------
  // Mapping found images onto configured references

  /** The target name of the first reference for `source`, or "" when there is none. */
  function TargetFor(refs: seq<ImageRef>, source: string): string
  {
    if refs == [] then ""
    else if refs[0].sourceImage == source then refs[0].targetImageName
    else TargetFor(refs[1..], source)
  }

  /**
   * The name found is that of the first reference for `source`; without such a reference
   * it is "".
   */
  lemma {:induction false} TargetForSpec(refs: seq<ImageRef>, source: string, i: nat)
    requires i < |refs| && refs[i].sourceImage == source
    requires forall j :: 0 <= j < i ==> refs[j].sourceImage != source
    ensures TargetFor(refs, source) == refs[i].targetImageName
  {
    if i > 0 {
      assert refs[0].sourceImage != source;
      TargetForSpec(refs[1..], source, i - 1);
    }
  }

  lemma {:induction false} TargetForAbsent(refs: seq<ImageRef>, source: string)
    requires forall j :: 0 <= j < |refs| ==> refs[j].sourceImage != source
    ensures TargetFor(refs, source) == ""
  {
    if refs != [] {
      TargetForAbsent(refs[1..], source);
    }
  }

  /** The search loop: stops at the first reference whose source is `source`. */
  method FindTargetName(refs: seq<ImageRef>, source: string) returns (name: string)
    ensures name == TargetFor(refs, source)
  {
    name := "";
    var i := 0;
    while i < |refs|
      invariant 0 <= i <= |refs|
      invariant name == ""
      invariant TargetFor(refs, source) == TargetFor(refs[i..], source)
    {
      if refs[i].sourceImage == source {
        name := refs[i].targetImageName;
        break;
      }
      assert refs[i..][1..] == refs[i + 1..];
      i := i + 1;
    }
  }

  /** A repository found by a strategy can be turned into an image: it is mapped and has a default name. */
  predicate Convertible(refs: seq<ImageRef>, source: string)
  {
    TargetFor(refs, source) != "" && '/' in source
  }

  /** The error for the first repository of `order` that cannot be turned into an image. */
  function ConvertError(refs: seq<ImageRef>, source: string, tags: seq<string>,
                        wrap: (string, string) -> string): string
    requires !Convertible(refs, source)
  {
    if TargetFor(refs, source) == "" then "found image " + source + " but it is not present in Images"
    else wrap(source, NewImage(source, tags, TargetFor(refs, source)).error)
  }

  /** The keys of a map in an order the model leaves open, as Go's map iteration does. */
  method MapOrder(m: map<string, seq<string>>) returns (order: seq<string>)
    ensures forall k :: k in order <==> k in m
    ensures NoDup(order)
  {
    order := [];
    var remaining := m.Keys;
    while remaining != {}
      invariant remaining <= m.Keys
      invariant forall k :: k in order <==> k in m.Keys - remaining
      invariant NoDup(order)
      decreases |remaining|
    {
      var k :| k in remaining;
      order := order + [k];
      remaining := remaining - {k};
    }
  }

  /**
   * The loop over a repository-to-tags map (in the enumeration `order`): every repository
   * must be mapped by a reference with a non-empty target name, and each becomes an image
   * with its tags under that name.
   */
  method ImagesFromMap(imageMap: map<string, seq<string>>, order: seq<string>, refs: seq<ImageRef>,
                       wrap: (string, string) -> string)
    returns (r: Result<seq<ArtifactFields>>)
    requires forall k :: k in order ==> k in imageMap
    ensures r.Ok? <==> forall i :: 0 <= i < |order| ==> Convertible(refs, order[i])
    ensures r.Ok? ==> |r.value| == |order|
    ensures r.Ok? ==> forall i :: 0 <= i < |order| ==>
      Ok(r.value[i]) == NewImage(order[i], imageMap[order[i]], TargetFor(refs, order[i]))
    ensures r.Ok? ==> forall i :: 0 <= i < |order| ==> r.value[i].sourceArtifact == order[i]
    ensures r.Err? ==>
      exists k :: && 0 <= k < |order|
                  && !Convertible(refs, order[k])
                  && (forall j :: 0 <= j < k ==> Convertible(refs, order[j]))
                  && r.error == ConvertError(refs, order[k], imageMap[order[k]], wrap)
  {
    var images: seq<ArtifactFields> := [];
    var i := 0;
    while i < |order|
      invariant 0 <= i <= |order|
      invariant |images| == i
      invariant forall j :: 0 <= j < i ==> Convertible(refs, order[j])
      invariant forall j :: 0 <= j < i ==>
        Ok(images[j]) == NewImage(order[j], imageMap[order[j]], TargetFor(refs, order[j]))
      invariant forall j :: 0 <= j < i ==> images[j].sourceArtifact == order[j]
    {
      var source := order[i];
      assert source in order;
      var targetName := FindTargetName(refs, source);
      if targetName == "" {
        return Err("found image " + source + " but it is not present in Images");
      }
      var image := NewImage(source, imageMap[source], targetName);
      if image.Err? {
        return Err(wrap(source, image.error));
      }
      images := images + [image.value];
      i := i + 1;
    }
    return Ok(images);
  }

  // ---------------------------------------------------------------------------
  // The repository-to-tags map

  /** Every repository's tag list is free of duplicates. */
  predicate NoDupLists(m: map<string, seq<string>>)
  {
    forall k :: k in m ==> NoDup(m[k])
  }

  /** Recording one found (repository, tag): a new repository gets [tag], a known one gets the tag appended if new. */
  function AddTag(m: map<string, seq<string>>, repository: string, tag: string): (r: map<string, seq<string>>)
    ensures r.Keys == m.Keys + {repository}
    ensures forall k :: k in m && k != repository ==> r[k] == m[k]
    ensures repository in m ==> m[repository] <= r[repository]
    ensures forall t :: t in r[repository] <==> t == tag || (repository in m && t in m[repository])
  {
    if repository !in m then m[repository := [tag]]
    else if tag in m[repository] then m
    else m[repository := m[repository] + [tag]]
  }

  /** Recording a tag keeps every list duplicate-free, the same merge the accumulator performs. */
  lemma AddTagNoDup(m: map<string, seq<string>>, repository: string, tag: string)
    requires NoDupLists(m)
    ensures NoDupLists(AddTag(m, repository, tag))
    ensures AddTag(m, repository, tag)[repository] ==
      AppendNew(if repository in m then m[repository] else [], [tag])
  {
    var existing := if repository in m then m[repository] else [];
    assert AppendNew(existing, [tag]) == AppendNew(existing, []) + (if tag in existing then [] else [tag]) by {
      assert [tag][..0] == [];
    }
    if repository in m && tag !in m[repository] {
      var r := m[repository] + [tag];
      forall i, j | 0 <= i < j < |r| ensures r[i] != r[j] {
        if j == |r| - 1 { assert r[i] in m[repository]; }
      }
    }
  }

  /** `imageMap` as a Go map passed by reference: the strategies' helpers update it in place. */
  class TagMap {
    var tags: map<string, seq<string>>

    constructor ()
      ensures tags == map[]
    {
      tags := map[];
    }

    method Add(repository: string, tag: string)
      modifies this
      ensures tags == AddTag(old(tags), repository, tag)
    {
      if repository !in tags {
        tags := tags[repository := [tag]];
      } else if tag !in tags[repository] {
        tags := tags[repository := tags[repository] + [tag]];
      }
    }
  }
}
