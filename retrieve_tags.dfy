/**
 * The tag-discovery script (retrieve-image-tags/retrieve-image-tags.py): for every entry
 * of its configuration it finds candidate tags (registry tags, GitHub releases or the
 * images a Helm chart renders), removes duplicates, drops what the images list already
 * holds, and prints sorted image and tag lists.
 *
 * HTTP, GitHub, Helm and file reading are not part of this model: their results are
 * inputs. Foreign functions are parameters: `search(pattern, s)` is `re.search`,
 * `isValid` is `semver.VersionInfo.isvalid`, `satisfies(version, constraint)` is
 * `semver.match`, `toInt` is `int()` (None where it raises), and `listed(image, tag)` is
 * `_image_tag_already_exist` over the images list. A Python `set` is iterated in an order
 * the model takes as an input enumeration.
 */
module RetrieveImageTags {
  import opened Wrappers
  import opened Text
  import opened Ordering
  import opened Sorting
  import Registry

  /** The exceptions the modelled code can raise; the script does not catch them. */
  datatype PyError = IndexError | ValueError

  datatype PyResult<T> = Value(value: T) | Raised(exception: PyError)

  // ---------------------------------------------------------------------------
  // _get_all_from_image

  /**
   * `_get_all_from_image`: the same four cases as the Go code. A reference without "/"
   * reaches `splitted_image[1]` and raises.
   */
  function AllFromImage(image: string): (r: PyResult<Registry.RegistryInfo>)
  {
    var parts := Split(image, '/');
    if |parts| == 2 && '.' !in parts[0] then Value(Registry.RegistryInfo("dockerhub", parts[0], parts[1]))
    else if |parts| == 2 && '.' in parts[0] then Value(Registry.RegistryInfo(parts[0], "", parts[1]))
    else if |parts| > 3 && '.' in parts[0] then Value(Registry.RegistryInfo(parts[0], parts[1], Join(parts[2..], '/')))
    else if |parts| < 3 then Raised(IndexError)
    else Value(Registry.RegistryInfo(parts[0], parts[1], parts[2]))
  }

  /**
   * The script and `getRegistryInformationFromImage` agree on every reference the Go code
   * accepts, trailing segments dropped alike; the script raises on exactly the others.
   */
  lemma AllFromImageAgrees(image: string)
    ensures AllFromImage(image).Value? <==> '/' in image
    ensures '/' in image ==> AllFromImage(image) == Value(Registry.RegistryInformation(image))
    ensures var parts := Split(image, '/');
      |parts| > 3 && '.' !in parts[0] ==> AllFromImage(image) == Value(Registry.RegistryInfo(parts[0], parts[1], parts[2]))
  {
    SplitSeveral(image, '/');
  }

  // ---------------------------------------------------------------------------
  // The registry source: filter, then the first or the newest tag

  /** The tags `search` finds the filter in, in input order; all tags without a filter. */
  function Filtered(tags: seq<string>, filter: Option<string>, search: (string, string) -> bool): (r: seq<string>)
  {
    if tags == [] then []
    else
      var init := Filtered(tags[..|tags| - 1], filter, search);
      var t := tags[|tags| - 1];
      if filter.None? || search(filter.value, t) then init + [t] else init
  }

  /** A tag is kept exactly when it is listed and matches the filter; without a filter nothing is dropped. */
  lemma {:induction false} FilteredSpec(tags: seq<string>, filter: Option<string>, search: (string, string) -> bool)
    ensures forall t :: t in Filtered(tags, filter, search) <==> t in tags && (filter.None? || search(filter.value, t))
    ensures filter.None? ==> Filtered(tags, filter, search) == tags
  {
    if tags != [] {
      FilteredSpec(tags[..|tags| - 1], filter, search);
      assert tags == tags[..|tags| - 1] + [tags[|tags| - 1]];
    }
  }

  /** The loop over `image_tags` with a `versionFilter`. */
  method FilterTags(imageTags: seq<string>, filter: Option<string>, search: (string, string) -> bool)
    returns (foundImages: seq<string>)
    ensures foundImages == Filtered(imageTags, filter, search)
  {
    if filter.None? {
      FilteredSpec(imageTags, filter, search);
      return imageTags;
    }
    foundImages := [];
    var i := 0;
    while i < |imageTags|
      invariant 0 <= i <= |imageTags|
      invariant foundImages == Filtered(imageTags[..i], filter, search)
    {
      assert imageTags[..i + 1][..i] == imageTags[..i];
      var imageTag := imageTags[i];
      if search(filter.value, imageTag) {
        foundImages := foundImages + [imageTag];
      }
      i := i + 1;
    }
    assert imageTags[..i] == imageTags;
  }

  // The version key of `latest`: the integers of the "."-separated parts, a leading "v"
  // removed from each, compared as Python compares lists.

  /** The integer list of a tag, or None when some part is not an integer. */
  function VersionKey(tag: string, toInt: string -> Option<int>): Option<seq<int>>
  {
    IntParts(Split(tag, '.'), toInt)
  }

  function IntParts(parts: seq<string>, toInt: string -> Option<int>): Option<seq<int>>
  {
    if parts == [] then Some([])
    else
      match toInt(TrimPrefix(parts[0], "v"))
      case None => None
      case Some(n) =>
        match IntParts(parts[1..], toInt)
        case None => None
        case Some(rest) => Some([n] + rest)
  }

  /** Python's `<=` on lists of integers: lexicographic, a proper prefix first. */
  predicate IntsLe(a: seq<int>, b: seq<int>)
  {
    a == [] || (b != [] && (a[0] < b[0] || (a[0] == b[0] && IntsLe(a[1..], b[1..]))))
  }

  lemma {:induction false} IntsLeTotal(a: seq<int>, b: seq<int>)
    ensures IntsLe(a, b) || IntsLe(b, a)
  {
    if a != [] && b != [] && a[0] == b[0] {
      IntsLeTotal(a[1..], b[1..]);
    }
  }

  lemma {:induction false} IntsLeTrans(a: seq<int>, b: seq<int>, c: seq<int>)
    requires IntsLe(a, b) && IntsLe(b, c)
    ensures IntsLe(a, c)
  {
    if a != [] && a[0] == b[0] && b[0] == c[0] {
      IntsLeTrans(a[1..], b[1..], c[1..]);
    }
  }

  lemma {:induction false} IntsLeAntisym(a: seq<int>, b: seq<int>)
    requires IntsLe(a, b) && IntsLe(b, a)
    ensures a == b
  {
    if a != [] {
      IntsLeAntisym(a[1..], b[1..]);
      assert a == [a[0]] + a[1..] && b == [b[0]] + b[1..];
    }
  }

  /** Every tag has a version key. */
  ghost predicate AllKeyed(tags: seq<string>, toInt: string -> Option<int>)
  {
    forall i :: 0 <= i < |tags| ==> VersionKey(tags[i], toInt).Some?
  }

  /**
   * Index `b` is what a stable ascending sort by version key puts last: no key is greater
   * than its own, and every tag after it has a strictly smaller key.
   */
  ghost predicate SortsLast(tags: seq<string>, toInt: string -> Option<int>, b: int)
    requires AllKeyed(tags, toInt)
  {
    && 0 <= b < |tags|
    && (forall j :: 0 <= j < |tags| ==> IntsLe(VersionKey(tags[j], toInt).value, VersionKey(tags[b], toInt).value))
    && (forall j :: b < j < |tags| ==> !IntsLe(VersionKey(tags[b], toInt).value, VersionKey(tags[j], toInt).value))
  }

  /** At most one index sorts last, so `latest` is well defined. */
  lemma SortsLastUnique(tags: seq<string>, toInt: string -> Option<int>, b1: int, b2: int)
    requires AllKeyed(tags, toInt)
    requires SortsLast(tags, toInt, b1) && SortsLast(tags, toInt, b2)
    ensures b1 == b2
  {
    var k1, k2 := VersionKey(tags[b1], toInt).value, VersionKey(tags[b2], toInt).value;
    assert IntsLe(k1, k2) && IntsLe(k2, k1);
  }

  /**
   * `latest`: sorting by version key raises ValueError when some part is not an integer,
   * taking the last element raises IndexError on an empty list, and otherwise the result
   * is the tag a stable sort puts last.
   */
  method Latest(tags: seq<string>, toInt: string -> Option<int>) returns (r: PyResult<string>)
    ensures r == Raised(ValueError) <==> !AllKeyed(tags, toInt)
    ensures r == Raised(IndexError) <==> AllKeyed(tags, toInt) && tags == []
    ensures r.Value? ==> AllKeyed(tags, toInt) && exists b :: SortsLast(tags, toInt, b) && r.value == tags[b]
  {
    var best := 0;
    var bestKey: seq<int> := [];
    var i := 0;
    while i < |tags|
      invariant 0 <= i <= |tags|
      invariant forall j :: 0 <= j < i ==> VersionKey(tags[j], toInt).Some?
      invariant i > 0 ==> 0 <= best < i && VersionKey(tags[best], toInt) == Some(bestKey)
      invariant forall j :: 0 <= j < i ==> IntsLe(VersionKey(tags[j], toInt).value, bestKey)
      invariant forall j :: best < j < i ==> !IntsLe(bestKey, VersionKey(tags[j], toInt).value)
    {
      var key := VersionKey(tags[i], toInt);
      if key.None? {
        assert !AllKeyed(tags, toInt);
        return Raised(ValueError);
      }
      if i == 0 || IntsLe(bestKey, key.value) {
        IntsLeTotal(key.value, key.value);
        forall j | 0 <= j < i ensures IntsLe(VersionKey(tags[j], toInt).value, key.value) {
          IntsLeTrans(VersionKey(tags[j], toInt).value, bestKey, key.value);
        }
        best, bestKey := i, key.value;
      } else {
        IntsLeTotal(bestKey, key.value);
      }
      i := i + 1;
    }
    if |tags| == 0 {
      return Raised(IndexError);
    }
    assert SortsLast(tags, toInt, best);
    r := Value(tags[best]);
  }

  /** What the registry branch reads from the entry's configuration. */
  datatype RegistrySelection = RegistrySelection(versionFilter: Option<string>, latestEntry: bool, latest: bool)

  /**
   * The registry branch after listing the tags: the filtered tags, or only the first of
   * them with `latest_entry`, or only the newest with `latest`.
   */
  method SelectRegistryTags(imageTags: seq<string>, sel: RegistrySelection, search: (string, string) -> bool,
                            toInt: string -> Option<int>) returns (r: PyResult<seq<string>>)
    ensures var found := Filtered(imageTags, sel.versionFilter, search);
      && (sel.latestEntry ==> r == if found == [] then Raised(IndexError) else Value([found[0]]))
      && (!sel.latestEntry && !sel.latest ==> r == Value(found))
      && (!sel.latestEntry && sel.latest ==>
            && (r == Raised(ValueError) <==> !AllKeyed(found, toInt))
            && (r == Raised(IndexError) <==> AllKeyed(found, toInt) && found == [])
            && (r.Value? ==> exists b :: AllKeyed(found, toInt) && SortsLast(found, toInt, b) && r.value == [found[b]]))
  {
    var foundImages := FilterTags(imageTags, sel.versionFilter, search);
    if sel.latestEntry {
      if |foundImages| == 0 {
        return Raised(IndexError);
      }
      return Value([foundImages[0]]);
    }
    if sel.latest {
      var last := Latest(foundImages, toInt);
      if last.Raised? {
        return Raised(last.exception);
      }
      return Value([last.value]);
    }
    r := Value(foundImages);
  }

  // ---------------------------------------------------------------------------
  // The github-releases source

  datatype Release = Release(tagName: string, draft: bool, prerelease: bool)

  /** What the github-releases branch reads from the entry's configuration. */
  datatype ReleaseSelection = ReleaseSelection(versionFilter: Option<string>, versionConstraint: Option<string>)

  /** Whether a release's tag is offered: a published, semver-valid tag passing the optional filter and constraint. */
  predicate Offered(release: Release, sel: ReleaseSelection, search: (string, string) -> bool,
                    isValid: string -> bool, satisfies: (string, string) -> bool)
  {
    var version := TrimPrefix(release.tagName, "v");
    && !release.prerelease && !release.draft && isValid(version)
    && (sel.versionFilter.None? || search(sel.versionFilter.value, release.tagName))
    && (sel.versionConstraint.None? || satisfies(version, sel.versionConstraint.value))
  }

  function OfferedTags(releases: seq<Release>, sel: ReleaseSelection, search: (string, string) -> bool,
                       isValid: string -> bool, satisfies: (string, string) -> bool): seq<string>
  {
    if releases == [] then []
    else
      var init := OfferedTags(releases[..|releases| - 1], sel, search, isValid, satisfies);
      var release := releases[|releases| - 1];
      if Offered(release, sel, search, isValid, satisfies) then init + [release.tagName] else init
  }

  /** A tag is offered exactly when some release with that tag passes every check. */
  lemma {:induction false} OfferedTagsSpec(releases: seq<Release>, sel: ReleaseSelection, search: (string, string) -> bool,
                                           isValid: string -> bool, satisfies: (string, string) -> bool, t: string)
    ensures t in OfferedTags(releases, sel, search, isValid, satisfies) <==>
      exists i :: 0 <= i < |releases| && releases[i].tagName == t && Offered(releases[i], sel, search, isValid, satisfies)
  {
    if releases != [] {
      var init := releases[..|releases| - 1];
      OfferedTagsSpec(init, sel, search, isValid, satisfies, t);
      assert forall i | 0 <= i < |init| :: init[i] == releases[i];
    }
  }

  /** The loop over the repository's releases, in listing order. */
  method GithubReleaseTags(releases: seq<Release>, sel: ReleaseSelection, search: (string, string) -> bool,
                           isValid: string -> bool, satisfies: (string, string) -> bool)
    returns (foundReleases: seq<string>)
    ensures foundReleases == OfferedTags(releases, sel, search, isValid, satisfies)
  {
    foundReleases := [];
    var i := 0;
    while i < |releases|
      invariant 0 <= i <= |releases|
      invariant foundReleases == OfferedTags(releases[..i], sel, search, isValid, satisfies)
    {
      assert releases[..i + 1][..i] == releases[..i];
      var release := releases[i];
      var version := TrimPrefix(release.tagName, "v");
      if !release.prerelease && !release.draft && isValid(version) {
        if sel.versionFilter.Some? && !search(sel.versionFilter.value, release.tagName) {
          i := i + 1;
          continue;
        }
        if sel.versionConstraint.Some? && !satisfies(version, sel.versionConstraint.value) {
          i := i + 1;
          continue;
        }
        foundReleases := foundReleases + [release.tagName];
      }
      i := i + 1;
    }
    assert releases[..i] == releases;
  }

  // ---------------------------------------------------------------------------
  // Deduplication and the output of a helm source

  /** `set(found_releases)`: the versions found, duplicates dropped. */
  function Dedup(foundReleases: seq<string>): (r: set<string>)
    ensures forall t :: t in r <==> t in foundReleases
  {
    set t | t in foundReleases
  }

  /**
   * What one rendered image contributes to `full_images`: the reference without
   * "docker.io/", unless it is a Rancher image, does not split into exactly a name and a
   * tag at ":", carries the tag "latest", names a denylisted image or is already listed.
   */
  function HelmImage(fullImage: string, denylist: seq<string>, listed: (string, string) -> bool): (r: Option<string>)
  {
    var image := TrimPrefix(fullImage, "docker.io/");
    var parts := Split(image, ':');
    if HasPrefix(image, "rancher/") || |parts| != 2 || parts[1] == "latest" || parts[0] in denylist || listed(parts[0], parts[1])
    then None
    else Some(image)
  }

  /** The images a helm source adds, in the order the set is enumerated. */
  function HelmKept(order: seq<string>, denylist: seq<string>, listed: (string, string) -> bool): seq<string>
  {
    if order == [] then []
    else
      var init := HelmKept(order[..|order| - 1], denylist, listed);
      match HelmImage(order[|order| - 1], denylist, listed)
      case None => init
      case Some(image) => init + [image]
  }

  /** An image is added exactly when some found reference yields it. */
  lemma {:induction false} HelmKeptMember(order: seq<string>, denylist: seq<string>, listed: (string, string) -> bool, x: string)
    ensures x in HelmKept(order, denylist, listed) <==> exists f :: f in order && HelmImage(f, denylist, listed) == Some(x)
  {
    if order != [] {
      var init := order[..|order| - 1];
      HelmKeptMember(init, denylist, listed, x);
      assert order == init + [order[|order| - 1]];
    }
  }

  lemma {:induction false} HelmKeptAppend(a: seq<string>, b: seq<string>, denylist: seq<string>, listed: (string, string) -> bool)
    ensures HelmKept(a + b, denylist, listed) == HelmKept(a, denylist, listed) + HelmKept(b, denylist, listed)
  {
    if b != [] {
      var init := b[..|b| - 1];
      HelmKeptAppend(a, init, denylist, listed);
      assert (a + b)[..|a + b| - 1] == a + init;
    } else {
      assert a + b == a;
    }
  }

  /** Taking one reference out of an enumeration takes its image out of the result. */
  lemma HelmKeptRemove(o: seq<string>, k: int, denylist: seq<string>, listed: (string, string) -> bool)
    requires 0 <= k < |o|
    ensures multiset(o) == multiset(o[..k] + o[k + 1..]) + multiset{o[k]}
    ensures multiset(HelmKept(o, denylist, listed)) ==
      multiset(HelmKept(o[..k] + o[k + 1..], denylist, listed)) + multiset(HelmKept([o[k]], denylist, listed))
  {
    assert o == o[..k] + [o[k]] + o[k + 1..];
    HelmKeptAppend(o[..k], [o[k]], denylist, listed);
    HelmKeptAppend(o[..k] + [o[k]], o[k + 1..], denylist, listed);
    HelmKeptAppend(o[..k], o[k + 1..], denylist, listed);
  }

  /** The images added depend on the references found, not on the order they are visited in. */
  lemma {:induction false} HelmKeptPermutation(o1: seq<string>, o2: seq<string>, denylist: seq<string>, listed: (string, string) -> bool)
    requires multiset(o1) == multiset(o2)
    ensures multiset(HelmKept(o1, denylist, listed)) == multiset(HelmKept(o2, denylist, listed))
    decreases |o1|
  {
    if o1 == [] {
      assert |o2| == |multiset(o2)| == 0;
    } else {
      var n := |o1| - 1;
      var f := o1[n];
      assert f in multiset(o2);
      var k :| 0 <= k < |o2| && o2[k] == f;
      var init, rest := o1[..n], o2[..k] + o2[k + 1..];
      HelmKeptRemove(o1, n, denylist, listed);
      HelmKeptRemove(o2, k, denylist, listed);
      assert o1[..n] + o1[n + 1..] == init;
      assert multiset(init) == multiset(o1) - multiset{f} == multiset(rest);
      HelmKeptPermutation(init, rest, denylist, listed);
    }
  }

  /** Two enumerations of one set are permutations of each other. */
  lemma EnumerationsPermute(o1: seq<string>, o2: seq<string>)
    requires Distinct(o1) && Distinct(o2)
    requires forall x :: x in o1 <==> x in o2
    ensures multiset(o1) == multiset(o2)
  {
    forall x ensures multiset(o1)[x] == multiset(o2)[x] {
      DistinctCount(o1, x);
      DistinctCount(o2, x);
      assert x in o1 <==> x in multiset(o1);
      assert x in o2 <==> x in multiset(o2);
    }
  }

  /** The helm branch: every found reference is filtered, then `full_images` is sorted. */
  method HelmFullImages(order: seq<string>, denylist: seq<string>, listed: (string, string) -> bool)
    returns (fullImages: seq<string>)
    ensures fullImages == SortStrings(HelmKept(order, denylist, listed))
  {
    fullImages := [];
    var i := 0;
    while i < |order|
      invariant 0 <= i <= |order|
      invariant fullImages == HelmKept(order[..i], denylist, listed)
    {
      assert order[..i + 1][..i] == order[..i];
      var fullImage := TrimPrefix(order[i], "docker.io/");
      if HasPrefix(fullImage, "rancher/") {
        i := i + 1;
        continue;
      }
      var splittedImage := Split(fullImage, ':');
      if |splittedImage| == 2 {
        if splittedImage[1] == "latest" {
          i := i + 1;
          continue;
        }
        if splittedImage[0] in denylist {
          i := i + 1;
          continue;
        }
        if !listed(splittedImage[0], splittedImage[1]) {
          fullImages := fullImages + [fullImage];
        }
      }
      i := i + 1;
    }
    assert order[..i] == order;
    fullImages := SortStrings(fullImages);
  }

  /**
   * The output of a helm source is a function of the set of found references: any two
   * enumerations of the set give the same sorted list, and it holds exactly the images
   * some reference yields.
   */
  lemma HelmFullImagesOfSet(o1: seq<string>, o2: seq<string>, denylist: seq<string>, listed: (string, string) -> bool)
    requires Distinct(o1) && Distinct(o2)
    requires forall x :: x in o1 <==> x in o2
    ensures SortStrings(HelmKept(o1, denylist, listed)) == SortStrings(HelmKept(o2, denylist, listed))
  {
    EnumerationsPermute(o1, o2);
    HelmKeptPermutation(o1, o2, denylist, listed);
    SortStringsPermutation(HelmKept(o1, denylist, listed), HelmKept(o2, denylist, listed));
  }

  // ---------------------------------------------------------------------------
  // Sorted, duplicate-free listings

  predicate SortedStrings(s: seq<string>)
  {
    forall i, j :: 0 <= i < j < |s| ==> StrLe(s[i], s[j])
  }

  /** `s` lists the strings of `members`, each once, in ascending order. */
  ghost predicate Listing(s: seq<string>, members: set<string>)
  {
    Distinct(s) && SortedStrings(s) && forall x :: x in s <==> x in members
  }

  /** A set has exactly one sorted, duplicate-free listing. */
  lemma {:induction false} ListingUnique(a: seq<string>, b: seq<string>, members: set<string>)
    requires Listing(a, members) && Listing(b, members)
    ensures a == b
    decreases |a|
  {
    if a != [] {
      assert a[0] in b && b[0] in a;
      assert StrLe(a[0], b[0]) by {
        var j :| 0 <= j < |a| && a[j] == b[0];
        StrCompareAntisym(a[0], a[0]);
      }
      assert StrLe(b[0], a[0]) by {
        var j :| 0 <= j < |b| && b[j] == a[0];
        StrCompareAntisym(b[0], b[0]);
      }
      StrCompareAntisym(a[0], b[0]);
      var rest := members - {a[0]};
      assert Listing(a[1..], rest) by {
        forall x ensures x in a[1..] <==> x in rest {
          if x in a[1..] {
            var j :| 0 <= j < |a[1..]| && a[1..][j] == x;
            assert a[j + 1] == x;
          }
          assert x in a ==> x == a[0] || x in a[1..] by { assert a == [a[0]] + a[1..]; }
        }
      }
      assert Listing(b[1..], rest) by {
        forall x ensures x in b[1..] <==> x in rest {
          if x in b[1..] {
            var j :| 0 <= j < |b[1..]| && b[1..][j] == x;
            assert b[j + 1] == x;
          }
          assert x in b ==> x == b[0] || x in b[1..] by { assert b == [b[0]] + b[1..]; }
        }
      }
      ListingUnique(a[1..], b[1..], rest);
      assert a == [a[0]] + a[1..] && b == [b[0]] + b[1..];
    } else {
      forall x ensures multiset(b)[x] == 0 {
        assert x in b <==> x in multiset(b);
      }
      assert multiset(b) == multiset{};
    }
  }

  /** `list.sort()` on a duplicate-free list gives the listing of its members. */
  lemma SortListing(s: seq<string>, members: set<string>)
    requires Distinct(s) && forall x :: x in s <==> x in members
    ensures Listing(SortStrings(s), members)
  {
    var r := SortStrings(s);
    DistinctPermutation(s, r);
    SortStringsSorted(s);
    forall x ensures x in r <==> x in s {
      assert x in r <==> x in multiset(r);
      assert x in s <==> x in multiset(s);
    }
  }

  // ---------------------------------------------------------------------------
  // The output of the other sources: images and tags

  predicate Rancher(image: string)
  {
    HasPrefix(image, "rancher/")
  }

  /** Some found tag of `image` is not in the images list yet. */
  ghost predicate Pending(image: string, order: seq<string>, listed: (string, string) -> bool)
  {
    exists t :: t in order && !listed(image, t)
  }

  /** Some non-Rancher image of the entry does not list `tag` yet. */
  ghost predicate TagPending(tag: string, images: seq<string>, listed: (string, string) -> bool)
  {
    exists k :: 0 <= k < |images| && !Rancher(images[k]) && !listed(images[k], tag)
  }

  /** The images the entry reports: its non-Rancher images that miss some found tag. */
  ghost function WantedImages(images: seq<string>, order: seq<string>, listed: (string, string) -> bool): set<string>
  {
    set x | x in images && !Rancher(x) && Pending(x, order, listed)
  }

  /** The tags the entry reports: the found tags some non-Rancher image misses. */
  ghost function WantedTags(images: seq<string>, order: seq<string>, listed: (string, string) -> bool): set<string>
  {
    set t | t in order && TagPending(t, images, listed)
  }

  /** What the entry reports depends on the set of found tags, not on its enumeration. */
  lemma WantedOfSet(images: seq<string>, o1: seq<string>, o2: seq<string>, listed: (string, string) -> bool)
    requires forall x :: x in o1 <==> x in o2
    ensures WantedImages(images, o1, listed) == WantedImages(images, o2, listed)
    ensures WantedTags(images, o1, listed) == WantedTags(images, o2, listed)
  {
    forall x | x in images ensures Pending(x, o1, listed) == Pending(x, o2, listed) {
      if Pending(x, o1, listed) {
        var t :| t in o1 && !listed(x, t);
        assert t in o2;
      }
      if Pending(x, o2, listed) {
        var t :| t in o2 && !listed(x, t);
        assert t in o1;
      }
    }
  }

  /** Adding image `i` to the ones processed. */
  lemma WantedStep(images: seq<string>, i: int, order: seq<string>, listed: (string, string) -> bool)
    requires 0 <= i < |images|
    ensures Rancher(images[i]) ==>
      && WantedImages(images[..i + 1], order, listed) == WantedImages(images[..i], order, listed)
      && WantedTags(images[..i + 1], order, listed) == WantedTags(images[..i], order, listed)
    ensures !Rancher(images[i]) ==>
      && WantedImages(images[..i + 1], order, listed) ==
           WantedImages(images[..i], order, listed) + (if Pending(images[i], order, listed) then {images[i]} else {})
      && WantedTags(images[..i + 1], order, listed) ==
           WantedTags(images[..i], order, listed) + (set t | t in order && !listed(images[i], t))
  {
    var pre, post := images[..i], images[..i + 1];
    assert post == pre + [images[i]];
    forall t ensures TagPending(t, post, listed) <==> TagPending(t, pre, listed) || (!Rancher(images[i]) && !listed(images[i], t)) {
      if TagPending(t, post, listed) {
        var k :| 0 <= k < |post| && !Rancher(post[k]) && !listed(post[k], t);
        if k < i {
          assert pre[k] == post[k];
        }
      }
      if TagPending(t, pre, listed) {
        var k :| 0 <= k < |pre| && !Rancher(pre[k]) && !listed(pre[k], t);
        assert post[k] == pre[k];
      }
      if !Rancher(images[i]) && !listed(images[i], t) {
        assert post[i] == images[i];
      }
    }
  }

  /**
   * The scan of the found tags for one non-Rancher image: the image and every tag it does
   * not list yet are appended, unless already present.
   */
  method ScanTags(image: string, order: seq<string>, listed: (string, string) -> bool, images: seq<string>, tags: seq<string>)
    returns (images': seq<string>, tags': seq<string>)
    requires Distinct(images) && Distinct(tags)
    ensures Distinct(images') && Distinct(tags')
    ensures forall x :: x in images' <==> x in images || (x == image && Pending(image, order, listed))
    ensures forall t :: t in tags' <==> t in tags || (t in order && !listed(image, t))
  {
    images', tags' := images, tags;
    var j := 0;
    while j < |order|
      invariant 0 <= j <= |order|
      invariant Distinct(images') && Distinct(tags')
      invariant forall x :: x in images' <==> x in images || (x == image && Pending(image, order[..j], listed))
      invariant forall t :: t in tags' <==> t in tags || (t in order[..j] && !listed(image, t))
    {
      var tag := order[j];
      assert order[..j + 1] == order[..j] + [tag];
      if !listed(image, tag) {
        if image !in images' {
          images' := images' + [image];
        }
        if tag !in tags' {
          tags' := tags' + [tag];
        }
      }
      j := j + 1;
    }
    assert order[..j] == order;
  }

  /**
   * The loop over the entry's images: Rancher images are skipped, the others scanned, and
   * both lists sorted after each scan. The result lists each wanted image and tag once, in
   * ascending order.
   */
  method ImagesAndTags(images: seq<string>, order: seq<string>, listed: (string, string) -> bool)
    returns (outImages: seq<string>, outTags: seq<string>)
    ensures Listing(outImages, WantedImages(images, order, listed))
    ensures Listing(outTags, WantedTags(images, order, listed))
  {
    outImages, outTags := [], [];
    var i := 0;
    while i < |images|
      invariant 0 <= i <= |images|
      invariant Listing(outImages, WantedImages(images[..i], order, listed))
      invariant Listing(outTags, WantedTags(images[..i], order, listed))
    {
      var image := images[i];
      WantedStep(images, i, order, listed);
      if !HasPrefix(image, "rancher/") {
        outImages, outTags := ScanTags(image, order, listed, outImages, outTags);
        SortListing(outImages, WantedImages(images[..i + 1], order, listed));
        SortListing(outTags, WantedTags(images[..i + 1], order, listed));
        outImages := SortStrings(outImages);
        outTags := SortStrings(outTags);
      }
      i := i + 1;
    }
    assert images[..i] == images;
  }

  // ---------------------------------------------------------------------------
  // Deduplication before "docker.io/" is stripped

  /** The images a helm source should report: each image some found reference yields. */
  ghost function HelmWanted(order: seq<string>, denylist: seq<string>, listed: (string, string) -> bool): set<string>
  {
    set x | x in HelmKept(order, denylist, listed)
  }

  /** A reference yields the same image with or without the "docker.io/" registry. */
  lemma HelmImageDockerHub(image: string, denylist: seq<string>, listed: (string, string) -> bool)
    requires !HasPrefix(image, "docker.io/")
    ensures HelmImage("docker.io/" + image, denylist, listed) == HelmImage(image, denylist, listed)
  {
    TrimPrefixOfPrefixed("docker.io/", image);
  }

  lemma HelmKeptPair(f1: string, f2: string, denylist: seq<string>, listed: (string, string) -> bool)
    ensures HelmKept([f1, f2], denylist, listed) ==
      (match HelmImage(f1, denylist, listed) case None => [] case Some(x) => [x])
      + (match HelmImage(f2, denylist, listed) case None => [] case Some(x) => [x])
  {
    assert [f1, f2][..1] == [f1] && [f1][..0] == [];
    assert HelmKept([f1], denylist, listed) ==
      (match HelmImage(f1, denylist, listed) case None => [] case Some(x) => [x]);
  }

  lemma SortStringsPair(x: string)
    ensures SortStrings([x, x]) == [x, x]
  {
    var r := SortStrings([x, x]);
    assert |r| == 2 && r[0] in multiset(r) && r[1] in multiset(r);
  }

  /**
   * The set removes duplicates before "docker.io/" is stripped, so a chart rendering an
   * image both with and without "docker.io/" reports it twice.
   */
  lemma HelmListsImageTwice(image: string, denylist: seq<string>, listed: (string, string) -> bool)
    requires !HasPrefix(image, "docker.io/") && HelmImage(image, denylist, listed) == Some(image)
    ensures Distinct(["docker.io/" + image, image])
    ensures SortStrings(HelmKept(["docker.io/" + image, image], denylist, listed)) == [image, image]
  {
    HelmImageDockerHub(image, denylist, listed);
    HelmKeptPair("docker.io/" + image, image, denylist, listed);
    SortStringsPair(image);
    assert |"docker.io/" + image| != |image|;
  }

  /** "nginx:1.25", not yet listed, is such an image. */
  lemma HelmImageNginx(image: string, listed: (string, string) -> bool)
    requires image == "nginx:1.25" && forall i, t :: !listed(i, t)
    ensures HelmImage(image, [], listed) == Some(image)
  {
    assert image[..|"docker.io/"|][0] == 'n';
    assert image[..|"rancher/"|][0] == 'n';
    assert image == "nginx" + [':'] + "1.25";
    SplitNoSep("nginx", ':');
    SplitNoSep("1.25", ':');
    SplitAround("nginx", "1.25", ':');
  }

  /** What a helm source should report depends only on the set of found references. */
  lemma HelmWantedOfSet(o1: seq<string>, o2: seq<string>, denylist: seq<string>, listed: (string, string) -> bool)
    requires forall x :: x in o1 <==> x in o2
    ensures HelmWanted(o1, denylist, listed) == HelmWanted(o2, denylist, listed)
  {
    forall x ensures x in HelmKept(o1, denylist, listed) <==> x in HelmKept(o2, denylist, listed) {
      HelmKeptMember(o1, denylist, listed, x);
      HelmKeptMember(o2, denylist, listed, x);
    }
  }

  /**
   * The helm branch with duplicates removed after "docker.io/" is stripped: each image is
   * reported once, in ascending order.
   */
  method HelmFullImagesUnique(order: seq<string>, denylist: seq<string>, listed: (string, string) -> bool)
    returns (fullImages: seq<string>)
    ensures Listing(fullImages, HelmWanted(order, denylist, listed))
  {
    fullImages := [];
    var i := 0;
    while i < |order|
      invariant 0 <= i <= |order|
      invariant Distinct(fullImages)
      invariant forall x :: x in fullImages <==> x in HelmKept(order[..i], denylist, listed)
    {
      assert order[..i + 1][..i] == order[..i];
      var image := HelmImage(order[i], denylist, listed);
      if image.Some? && image.value !in fullImages {
        fullImages := fullImages + [image.value];
      }
      i := i + 1;
    }
    assert order[..i] == order;
    SortListing(fullImages, HelmWanted(order, denylist, listed));
    fullImages := SortStrings(fullImages);
  }
}
