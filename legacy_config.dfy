/**
 * The older image configuration (tools/pkg/config): images with a source reference, a
 * target name and tags, the repositories they are mirrored to, and an accumulator that
 * merges images by (source reference, target name). Unlike the artifact model it has no
 * AppCo naming rule, no exclusions and no per-image target repositories.
 */
module LegacyConfig {
  import opened Wrappers
  import opened Text
  import opened Ordering
  import opened Sorting
  import opened Dynamic
  import Artifacts
  import Accumulator

  datatype LegacyRepository = LegacyRepository(
    baseUrl: string,
    target: bool,
    password: string,
    registry: string,
    username: string)

  /** `compareRepositories`: the sort key is the base URL alone. */
  function LegacyRepositoryKey(r: LegacyRepository): seq<string>
  {
    [r.baseUrl]
  }

  // ---------------------------------------------------------------------------
  // The default target name

  /** The target name an image gets when none is specified: always "mirrored-" + org + "-" + name. */
  function MirroredName(source: string): (r: Result<string>)
  {
    var parts := Split(source, '/');
    if |parts| < 2 then
      Err("source image split into " + NatToString(|parts|) + " parts (>=2 parts expected)")
    else
      Ok("mirrored-" + parts[|parts| - 2] + "-" + parts[|parts| - 1])
  }

  /** `setDefaults`' error for the only reference it rejects: one without "/". */
  const OneSegmentError := "source image split into " + "1" + " parts (>=2 parts expected)"

  /** A source reference has a default name exactly when it holds a "/". */
  lemma MirroredNameDefined(source: string)
    ensures MirroredName(source).Ok? <==> '/' in source
    ensures MirroredName(source).Err? ==> MirroredName(source).error == OneSegmentError
  {
    if '/' in source {
      SplitSeveral(source, '/');
    } else {
      SplitNoSep(source, '/');
      assert NatToString(1) == "1";
    }
  }

  /** The name is built from the last two path segments, whatever comes before them. */
  lemma {:induction false} MirroredNameOf(prefix: string, org: string, name: string)
    requires '/' !in org && '/' !in name
    ensures var source := if prefix == [] then org + "/" + name else prefix + "/" + org + "/" + name;
      MirroredName(source) == Ok("mirrored-" + org + "-" + name)
  {
    SplitNoSep(org, '/');
    SplitNoSep(name, '/');
    SplitAround(org, name, '/');
    if prefix != [] {
      assert prefix + "/" + org + "/" + name == prefix + ['/'] + (org + ['/'] + name);
      SplitAround(prefix, org + ['/'] + name, '/');
    }
  }

  /**
   * The two generations agree on every source reference outside the AppCo registry, and
   * fail on the same references; under the AppCo registry the newer model names the
   * image "appco-" + its last segment instead.
   */
  lemma MirroredNameAgrees(source: string)
    ensures MirroredName(source).Ok? <==> Artifacts.DefaultTargetName(source).Ok?
    ensures '/' in source && Split(source, '/')[0] != Artifacts.AppCoRegistry ==>
      MirroredName(source) == Artifacts.DefaultTargetName(source)
    ensures '/' in source && Split(source, '/')[0] == Artifacts.AppCoRegistry ==>
      MirroredName(source) != Artifacts.DefaultTargetName(source)
  {
    SplitSeveral(source, '/');
    if '/' in source && Split(source, '/')[0] == Artifacts.AppCoRegistry {
      assert MirroredName(source).value[0] == 'm';
      assert Artifacts.DefaultTargetName(source).value[0] == 'a';
    }
  }

  // ---------------------------------------------------------------------------
  // The entity

  class Image {
    var sourceImage: string
    var defaultTargetImageName: string
    var specifiedTargetImageName: string
    var tags: seq<string>

    /** The composite literal: the default name starts empty. */
    constructor Literal(source: string, tags: seq<string>)
      ensures sourceImage == source && this.tags == tags
      ensures defaultTargetImageName == "" && specifiedTargetImageName == ""
    {
      sourceImage := source;
      this.tags := tags;
      defaultTargetImageName := "";
      specifiedTargetImageName := "";
    }

    /** `setDefaults`: derives the default target name, or fails and leaves it as it was. */
    method SetDefaults() returns (err: Outcome)
      modifies this`defaultTargetImageName
      ensures err.Pass? <==> MirroredName(sourceImage).Ok?
      ensures err.Pass? ==> defaultTargetImageName == MirroredName(sourceImage).value
      ensures err.Fail? ==> err.error == MirroredName(sourceImage).error
                            && defaultTargetImageName == old(defaultTargetImageName)
    {
      var parts := Split(sourceImage, '/');
      if |parts| < 2 {
        return Fail("source image split into " + NatToString(|parts|) + " parts (>=2 parts expected)");
      }
      defaultTargetImageName := "mirrored-" + parts[|parts| - 2] + "-" + parts[|parts| - 1];
      err := Pass;
    }

    /** `NewImage`: a fresh image with its default name set; it fails exactly when `setDefaults` does. */
    static method NewImage(source: string, tags: seq<string>) returns (r: Result<Image>)
      ensures r.Ok? <==> MirroredName(source).Ok?
      ensures r.Err? ==> r.error == MirroredName(source).error
      ensures r.Ok? ==>
        && fresh(r.value) && r.value.sourceImage == source && r.value.tags == tags
        && r.value.defaultTargetImageName == MirroredName(source).value
        && r.value.specifiedTargetImageName == ""
    {
      var image := new Image.Literal(source, tags);
      var err := image.SetDefaults();
      if err.Fail? {
        return Err(err.error);
      }
      r := Ok(image);
    }

    function TargetImageName(): string
      reads this`specifiedTargetImageName, this`defaultTargetImageName
    {
      Artifacts.EffectiveName(specifiedTargetImageName, defaultTargetImageName)
    }

    /** `SetTargetImageName`: the name reads back as set (the default for ""); the default itself is not stored. */
    method SetTargetImageName(value: string)
      modifies this`specifiedTargetImageName
      ensures specifiedTargetImageName == "" <==> value == defaultTargetImageName || value == ""
      ensures TargetImageName() == if value != "" then value else defaultTargetImageName
    {
      if value == defaultTargetImageName {
        specifiedTargetImageName := "";
      } else {
        specifiedTargetImageName := value;
      }
      Artifacts.NameRoundTrip(value, defaultTargetImageName);
    }

    /** The identity `compareImages` and the accumulator use. */
    function Key(): seq<string>
      reads this`sourceImage, this`specifiedTargetImageName, this`defaultTargetImageName
    {
      [sourceImage, TargetImageName()]
    }

    /** `Sort`: the tags in ascending order. */
    method Sort()
      modifies this`tags
      ensures tags == SortStrings(old(tags))
    {
      tags := SortStrings(tags);
    }
  }

  /** `compareImages`: by source reference, then by target name; 0 only for the same identity. */
  function CompareImages(a: Image, b: Image): (c: int)
    reads a`sourceImage, a`specifiedTargetImageName, a`defaultTargetImageName
    reads b`sourceImage, b`specifiedTargetImageName, b`defaultTargetImageName
    ensures c == 0 <==> a.sourceImage == b.sourceImage && a.TargetImageName() == b.TargetImageName()
    ensures c < 0 <==>
      StrCompare(a.sourceImage, b.sourceImage) < 0
      || (a.sourceImage == b.sourceImage && StrCompare(a.TargetImageName(), b.TargetImageName()) < 0)
  {
    var ka, kb := a.Key(), b.Key();
    assert ka[1..] == [a.TargetImageName()] && kb[1..] == [b.TargetImageName()];
    assert KeyCompare(ka[1..], kb[1..]) == StrCompare(a.TargetImageName(), b.TargetImageName()) by {
      assert ka[1..][1..] == [] == kb[1..][1..];
    }
    KeyCompareAntisym(ka, kb);
    KeyCompare(ka, kb)
  }

  /** The `%q` rendering of a `*Image` in `Parse`'s error: `&{...}` with every field quoted. */
  function Render(source: string, default: string, specified: string, tags: seq<string>): string
  {
    "&{" + Quote(source) + " " + Quote(default) + " " + Quote(specified) + " [" + QuotedList(tags) + "]}"
  }

  function QuotedList(tags: seq<string>): string
  {
    if tags == [] then ""
    else if |tags| == 1 then Quote(tags[0])
    else Quote(tags[0]) + " " + QuotedList(tags[1..])
  }

  // ---------------------------------------------------------------------------
  // Ordering the images

  function KeyedImages(images: seq<Image>): (r: seq<(seq<string>, Image)>)
    reads images`sourceImage, images`specifiedTargetImageName, images`defaultTargetImageName
    ensures |r| == |images|
    ensures forall i :: 0 <= i < |images| ==> r[i] == (images[i].Key(), images[i])
  {
    if images == [] then []
    else KeyedImages(images[..|images| - 1]) + [(images[|images| - 1].Key(), images[|images| - 1])]
  }

  function ImageKey(p: (seq<string>, Image)): seq<string>
  {
    p.0
  }

  /** `slices.SortStableFunc(images, compareImages)`, done on the images paired with their keys. */
  function SortImages(images: seq<Image>): seq<Image>
    reads images`sourceImage, images`specifiedTargetImageName, images`defaultTargetImageName
  {
    Seconds(SortBy(KeyedImages(images), ImageKey))
  }

  /** Sorting keeps the same images, each as often as before. */
  lemma SortImagesPermutation(images: seq<Image>)
    ensures multiset(SortImages(images)) == multiset(images)
  {
    var keyed := KeyedImages(images);
    SecondsPermutation(SortBy(keyed, ImageKey), keyed);
    assert Seconds(keyed) == images;
  }

  /** After sorting, `compareImages` never puts a later image before an earlier one. */
  lemma SortImagesSorted(images: seq<Image>)
    ensures var r := SortImages(images);
      forall i, j :: 0 <= i < j < |r| ==> CompareImages(r[i], r[j]) <= 0
  {
    var keyed := KeyedImages(images);
    var sorted := SortBy(keyed, ImageKey);
    var r := Seconds(sorted);
    SortBySortedBy(keyed, ImageKey);
    forall i | 0 <= i < |sorted| ensures ImageKey(sorted[i]) == r[i].Key() {
      assert sorted[i] in multiset(keyed);
      var k :| 0 <= k < |keyed| && keyed[k] == sorted[i];
    }
    forall i, j | 0 <= i < j < |r| ensures CompareImages(r[i], r[j]) <= 0 {
      assert KeyLe(ImageKey(sorted[i]), ImageKey(sorted[j]));
    }
  }

  /** The tags each listed image holds. */
  ghost function ImageTagsOf(images: seq<Image>): map<Image, seq<string>>
    reads images
  {
    map a | a in images :: a.tags
  }

  /** One round of `Sort`'s first loop. */
  method SortNextImage(images: seq<Image>, i: int, ghost original: map<Image, seq<string>>)
    requires TagsSortedPrefix(images, i, ImageTagsOf(images), original) && i < |images|
    modifies {images[i]}`tags
    ensures TagsSortedPrefix(images, i + 1, ImageTagsOf(images), original)
  {
    ghost var before := ImageTagsOf(images);
    var image := images[i];
    image.Sort();
    assert ImageTagsOf(images) == before[image := SortStrings(before[image])];
    TagsSortedStep(images, i, before, original);
  }

  /** `Sort`'s first loop: sorts the tags of each listed image in place. */
  method SortEachImage(images: seq<Image>)
    modifies images`tags
    ensures forall a | a in images :: a.tags == SortStrings(old(a.tags))
  {
    ghost var original := ImageTagsOf(images);
    var i := 0;
    while i < |images|
      invariant TagsSortedPrefix(images, i, ImageTagsOf(images), original)
      invariant forall a | a in images :: original[a] == old(a.tags)
    {
      SortNextImage(images, i, original);
      i := i + 1;
    }
    assert images[..i] == images;
  }

  class Config {
    var images: seq<Image>
    var repositories: seq<LegacyRepository>

    constructor (images: seq<Image>, repositories: seq<LegacyRepository>)
      ensures this.images == images && this.repositories == repositories
    {
      this.images := images;
      this.repositories := repositories;
    }

    /** Image `k` is the first whose default name cannot be derived, and `error` names it. */
    ghost predicate FirstFailure(k: int, error: string)
      reads this, images
    {
      && 0 <= k < |images|
      && (forall j | 0 <= j < k :: MirroredName(images[j].sourceImage).Ok?)
      && MirroredName(images[k].sourceImage).Err?
      && error == "failed to set defaults for image "
                  + Render(images[k].sourceImage, images[k].defaultTargetImageName,
                           images[k].specifiedTargetImageName, images[k].tags)
                  + ": " + OneSegmentError
    }

    /**
     * The defaults step of `Parse`: sets every image's default name in list order and
     * stops at the first failure, naming the image that failed.
     */
    method SetImageDefaults() returns (err: Outcome)
      modifies images`defaultTargetImageName
      ensures err.Pass? <==> forall j | 0 <= j < |images| :: MirroredName(images[j].sourceImage).Ok?
      ensures err.Pass? ==> forall j | 0 <= j < |images| ::
        MirroredName(images[j].sourceImage) == Ok(images[j].defaultTargetImageName)
      ensures err.Fail? ==> exists k :: FirstFailure(k, err.error)
    {
      var i := 0;
      while i < |images|
        invariant 0 <= i <= |images|
        invariant forall j | 0 <= j < i ::
          MirroredName(images[j].sourceImage) == Ok(images[j].defaultTargetImageName)
      {
        var image := images[i];
        var e := image.SetDefaults();
        if e.Fail? {
          MirroredNameDefined(image.sourceImage);
          assert e.error == OneSegmentError;
          assert forall j | 0 <= j < i :: MirroredName(images[j].sourceImage).Ok?;
          var msg := "failed to set defaults for image "
            + Render(image.sourceImage, image.defaultTargetImageName, image.specifiedTargetImageName, image.tags)
            + ": " + e.error;
          assert FirstFailure(i, msg);
          return Fail(msg);
        }
        i := i + 1;
      }
      err := Pass;
    }

    /**
     * `Sort`: every image's tags in ascending order, the images stably ordered by identity
     * and the repositories stably ordered by base URL.
     */
    method Sort()
      modifies this`images, this`repositories, images`tags
      ensures forall a | a in old(images) :: a.tags == SortStrings(old(a.tags))
      ensures images == old(SortImages(images))
      ensures repositories == SortBy(old(repositories), LegacyRepositoryKey)
    {
      SortImageTags();
      SortImageOrder();
    }

    /** The second step of `Sort`: the images by identity, the repositories by base URL. */
    method SortImageOrder()
      modifies this`images, this`repositories
      ensures images == old(SortImages(images))
      ensures repositories == SortBy(old(repositories), LegacyRepositoryKey)
    {
      images := SortImages(images);
      repositories := SortBy(repositories, LegacyRepositoryKey);
    }

    /** The first step of `Sort`: every image's tags in ascending order, which leaves their order by identity as it was. */
    method SortImageTags()
      modifies images`tags
      ensures forall a | a in images :: a.tags == SortStrings(old(a.tags))
      ensures SortImages(images) == old(SortImages(images))
    {
      ghost var keyed := KeyedImages(images);
      SortEachImage(images);
      assert KeyedImages(images) == keyed;
    }
  }

  // ---------------------------------------------------------------------------
  // The accumulator

  function PairOf(image: Image): Accumulator.ArtifactIndex
    reads image`sourceImage, image`specifiedTargetImageName, image`defaultTargetImageName
  {
    Accumulator.ArtifactIndex(image.sourceImage, image.TargetImageName())
  }

  /** `AddImage`'s inner loop: appends each tag of `incoming` that `existing` lacks. */
  method AppendMissingImageTags(existing: Image, incoming: seq<string>)
    modifies existing`tags
    ensures existing.tags == Accumulator.AppendNew(old(existing.tags), incoming)
  {
    var i := 0;
    while i < |incoming|
      invariant 0 <= i <= |incoming|
      invariant existing.tags == Accumulator.AppendNew(old(existing.tags), incoming[..i])
    {
      var newTag := incoming[i];
      assert incoming[..i + 1][..i] == incoming[..i];
      if newTag !in existing.tags {
        existing.tags := existing.tags + [newTag];
      }
      i := i + 1;
    }
    assert incoming[..i] == incoming;
  }

  class ImageAccumulator {
    var mapping: map<Accumulator.ArtifactIndex, Image>

    /** Every image is stored under its own identity. */
    ghost predicate Valid()
      reads this, mapping.Values
    {
      forall k | k in mapping :: PairOf(mapping[k]) == k
    }

    ghost function Contents(): Accumulator.Contents
      reads this, mapping.Values
    {
      map k | k in mapping :: mapping[k].tags
    }

    /** `NewImageAccumulator`. */
    constructor ()
      ensures Valid() && mapping == map[]
    {
      mapping := map[];
    }

    /**
     * `AddImage`: a new identity stores that very image; a known one gets the image's
     * missing tags appended to the stored image, in order and without duplicates.
     */
    method AddImage(newImage: Image)
      requires Valid()
      modifies this`mapping, (if PairOf(newImage) in mapping then {mapping[PairOf(newImage)]} else {})`tags
      ensures Valid()
      ensures Contents() == Accumulator.Merge(old(Contents()), PairOf(newImage), old(newImage.tags))
      ensures mapping.Keys == old(mapping.Keys) + {PairOf(newImage)}
      ensures forall k | k in old(mapping) :: mapping[k] == old(mapping[k])
      ensures PairOf(newImage) !in old(mapping) ==> mapping[PairOf(newImage)] == newImage
    {
      var pair := PairOf(newImage);
      if pair !in mapping {
        mapping := mapping[pair := newImage];
        assert Contents() == old(Contents())[pair := newImage.tags];
      } else {
        var existingImage := mapping[pair];
        AppendMissingImageTags(existingImage, newImage.tags);
        forall k | k in mapping && k != pair ensures mapping[k] != existingImage {
          assert PairOf(mapping[k]) == k;
        }
        assert Contents() == old(Contents())[pair := existingImage.tags];
      }
    }

    /** `Images`: every stored image exactly once, in an unspecified order. */
    method Images() returns (images: seq<Image>)
      requires Valid()
      ensures |images| == |mapping|
      ensures forall a :: a in images <==> a in mapping.Values
      ensures forall i, j :: 0 <= i < j < |images| ==> PairOf(images[i]) != PairOf(images[j])
    {
      images := [];
      var remaining := mapping.Keys;
      while remaining != {}
        invariant remaining <= mapping.Keys
        invariant |images| + |remaining| == |mapping|
        invariant forall a :: a in images <==> exists k :: k in mapping.Keys - remaining && mapping[k] == a
        invariant forall i :: 0 <= i < |images| ==> PairOf(images[i]) !in remaining
        invariant forall i, j :: 0 <= i < j < |images| ==> PairOf(images[i]) != PairOf(images[j])
        decreases |remaining|
      {
        var k :| k in remaining;
        images := images + [mapping[k]];
        remaining := remaining - {k};
      }
    }
  }

  /**
   * Adding the same tags under the same identity twice is adding them once, and the merged
   * list keeps every stored tag, gains every added one and stays duplicate-free.
   */
  lemma AddImageIdempotent(c: Accumulator.Contents, k: Accumulator.ArtifactIndex, tags: seq<string>)
    requires k in c ==> Accumulator.NoDup(c[k])
    requires Accumulator.NoDup(tags)
    ensures Accumulator.Merge(Accumulator.Merge(c, k, tags), k, tags) == Accumulator.Merge(c, k, tags)
    ensures Accumulator.NoDup(Accumulator.Merge(c, k, tags)[k])
  {
    var once := Accumulator.Merge(c, k, tags);
    Accumulator.AppendNewSubsumed(once[k], tags);
    if k in c {
      Accumulator.AppendNewNoDup(c[k], tags);
    }
  }
}
