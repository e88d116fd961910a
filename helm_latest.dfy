/**
 * The HelmLatest autoupdate strategy (tools/internal/autoupdate/helmlatest.go): every
 * chart is templated under each of its environments, every "image" string found in the
 * resulting YAML documents is recorded with its tag, and each repository found becomes an
 * image of the configured reference for it, unless it is on the deny list.
 *
 * Running `helm` and decoding its output are parameters: a `Template` holds the documents
 * one templating produced, or the command's error, and the decoder's error after them.
 */
module HelmLatest {
  import opened Wrappers
  import opened Text
  import opened Dynamic
  import opened Artifacts
  import opened Strategies
  import opened Accumulator

  const HelmRepoName := "image-mirror-tools-temp"

  /** An entry: its references, chart repository, charts with their environments, and denied images. */
  datatype HelmLatest = HelmLatest(images: seq<ImageRef>, helmRepo: string,
                                   charts: map<string, map<string, seq<string>>>, imageDenylist: seq<string>)

  // ---------------------------------------------------------------------------
  // Templating

  /** `Environment.ToHelmTemplateArgs`: a "--set" before every value. */
  method ToHelmTemplateArgs(environment: seq<string>) returns (args: seq<string>)
    ensures |args| == 2 * |environment|
    ensures forall i :: 0 <= i < |environment| ==> args[2 * i] == "--set" && args[2 * i + 1] == environment[i]
  {
    args := [];
    var i := 0;
    while i < |environment|
      invariant 0 <= i <= |environment|
      invariant |args| == 2 * i
      invariant forall j :: 0 <= j < i ==> args[2 * j] == "--set" && args[2 * j + 1] == environment[j]
    {
      args := args + ["--set", environment[i]];
      i := i + 1;
    }
  }

  /** The arguments of `helm` that template a chart under one environment. */
  method TemplateArgs(chart: string, environmentName: string, environment: seq<string>) returns (args: seq<string>)
    ensures |args| == 3 + 2 * |environment|
    ensures args[..3] == ["template", chart + "-" + environmentName, HelmRepoName + "/" + chart]
    ensures forall i :: 0 <= i < |environment| ==> args[3 + 2 * i] == "--set" && args[4 + 2 * i] == environment[i]
  {
    var sets := ToHelmTemplateArgs(environment);
    args := ["template", chart + "-" + environmentName, HelmRepoName + "/" + chart] + sets;
  }

  // ---------------------------------------------------------------------------
  // Image references

  /**
   * `parseImageRef`: the part before any "@" digest must split on ":" into a repository
   * and a tag; a leading "docker.io/" is dropped from the repository.
   */
  function ParseImageRef(raw: string): (r: Result<(string, string)>)
    ensures var ref := Split(raw, '@')[0];
      && (r.Ok? <==> |Split(ref, ':')| == 2)
      && (r.Err? ==> r.error == "failed to split " + Quote(ref) + " into two parts on \":\"")
  {
    var withoutDigest := Split(raw, '@')[0];
    var parts := Split(withoutDigest, ':');
    if |parts| != 2 then Err("failed to split " + Quote(withoutDigest) + " into two parts on \":\"")
    else Ok((TrimPrefix(parts[0], DockerIoPrefix), parts[1]))
  }

  /** "repository:tag" reads back as the repository and the tag, whatever digest follows. */
  lemma ParseImageRefRoundTrip(repository: string, tag: string, digest: string)
    requires ':' !in repository && ':' !in tag && '@' !in repository && '@' !in tag
    requires !HasPrefix(repository, DockerIoPrefix)
    ensures ParseImageRef(repository + ":" + tag) == Ok((repository, tag))
    ensures ParseImageRef(repository + ":" + tag + "@" + digest) == Ok((repository, tag))
    ensures ParseImageRef(DockerIoPrefix + repository + ":" + tag) == Ok((repository, tag))
  {
    var ref := repository + ":" + tag;
    assert '@' !in ref;
    SplitNoSep(ref, '@');
    SplitAround(ref, digest, '@');
    SplitNoSep(repository, ':');
    SplitNoSep(tag, ':');
    SplitAround(repository, tag, ':');
    var hub := DockerIoPrefix + repository;
    assert ':' !in hub && '@' !in hub;
    assert '@' !in hub + ":" + tag;
    SplitNoSep(hub + ":" + tag, '@');
    SplitNoSep(hub, ':');
    SplitAround(hub, tag, ':');
    TrimPrefixOfPrefixed(DockerIoPrefix, repository);
  }

  /** A reference whose registry has a port ("host:5000/app:1.0") does not split into two and is refused. */
  lemma ParseImageRefPortRejected(host: string, port: string, path: string, tag: string)
    requires '@' !in host + ":" + port + "/" + path + ":" + tag
    ensures ParseImageRef(host + ":" + port + "/" + path + ":" + tag).Err?
  {
    var raw := host + ":" + port + "/" + path + ":" + tag;
    SplitNoSep(raw, '@');
    assert raw == host + [':'] + (port + "/" + path + ":" + tag);
    SplitAround(host, port + "/" + path + ":" + tag, ':');
    assert port + "/" + path + ":" + tag == (port + "/" + path) + [':'] + tag;
    SplitAround(port + "/" + path, tag, ':');
  }

  // ---------------------------------------------------------------------------
  // Walking the YAML documents

  type TagsMap = map<string, seq<string>>

  /**
   * `extractImagesFromYaml`: in a map, an "image" key with a string value is recorded
   * (other values under "image" are ignored) and every other value is searched; in a list,
   * every item is searched; the first reference that does not parse aborts.
   */
  function Walk(d: Dyn, m: TagsMap): Result<TagsMap>
    decreases d, 1
  {
    match d
    case DMap(entries) => WalkEntries(d, 0, m)
    case DList(items) => WalkItems(d, 0, m)
    case _ => Ok(m)
  }

  function WalkEntries(d: Dyn, i: nat, m: TagsMap): Result<TagsMap>
    requires d.DMap? && i <= |d.entries|
    decreases d, 0, |d.entries| - i
  {
    if i == |d.entries| then Ok(m)
    else
      var key := d.entries[i].0;
      var value := d.entries[i].1;
      if key == "image" then
        if value.DString? then
          match ParseImageRef(value.s)
          case Err(e) => Err("failed to parse " + Quote(value.s) + " as image ref: " + e)
          case Ok(ref) => WalkEntries(d, i + 1, AddTag(m, ref.0, ref.1))
        else WalkEntries(d, i + 1, m)
      else
        match Walk(value, m)
        case Err(e) => Err(e)
        case Ok(m') => WalkEntries(d, i + 1, m')
  }

  function WalkItems(d: Dyn, i: nat, m: TagsMap): Result<TagsMap>
    requires d.DList? && i <= |d.items|
    decreases d, 0, |d.items| - i
  {
    if i == |d.items| then Ok(m)
    else
      match Walk(d.items[i], m)
      case Err(e) => Err(e)
      case Ok(m') => WalkItems(d, i + 1, m')
  }

  /** The strings under "image" keys, in the order the walk meets them. */
  function ImageStrings(d: Dyn): seq<string>
    decreases d, 1
  {
    match d
    case DMap(entries) => EntryImageStrings(d, 0)
    case DList(items) => ItemImageStrings(d, 0)
    case _ => []
  }

  function EntryImageStrings(d: Dyn, i: nat): seq<string>
    requires d.DMap? && i <= |d.entries|
    decreases d, 0, |d.entries| - i
  {
    if i == |d.entries| then []
    else
      var value := d.entries[i].1;
      (if d.entries[i].0 == "image" then (if value.DString? then [value.s] else []) else ImageStrings(value))
      + EntryImageStrings(d, i + 1)
  }

  function ItemImageStrings(d: Dyn, i: nat): seq<string>
    requires d.DList? && i <= |d.items|
    decreases d, 0, |d.items| - i
  {
    if i == |d.items| then [] else ImageStrings(d.items[i]) + ItemImageStrings(d, i + 1)
  }

  /** Recording image references one after the other; the first that does not parse aborts. */
  function AddImageRefs(refs: seq<string>, m: TagsMap): Result<TagsMap>
  {
    if refs == [] then Ok(m)
    else
      match ParseImageRef(refs[0])
      case Err(e) => Err("failed to parse " + Quote(refs[0]) + " as image ref: " + e)
      case Ok(ref) => AddImageRefs(refs[1..], AddTag(m, ref.0, ref.1))
  }

  /** Recording two lists of references is recording the first, then the second. */
  lemma {:induction false} AddImageRefsAppend(a: seq<string>, b: seq<string>, m: TagsMap)
    ensures AddImageRefs(a + b, m) ==
      match AddImageRefs(a, m) case Err(e) => Err(e) case Ok(m') => AddImageRefs(b, m')
  {
    if a == [] {
      assert a + b == b;
    } else {
      assert (a + b)[0] == a[0] && (a + b)[1..] == a[1..] + b;
      match ParseImageRef(a[0])
      case Err(_) =>
      case Ok(ref) => AddImageRefsAppend(a[1..], b, AddTag(m, ref.0, ref.1));
    }
  }

  /** The walk records exactly the references under "image" keys, in document order. */
  lemma {:induction false} WalkRecords(d: Dyn, m: TagsMap)
    ensures Walk(d, m) == AddImageRefs(ImageStrings(d), m)
    decreases d, 1
  {
    match d
    case DMap(entries) => WalkEntriesRecords(d, 0, m);
    case DList(items) => WalkItemsRecords(d, 0, m);
    case _ =>
  }

  lemma {:induction false} WalkEntriesRecords(d: Dyn, i: nat, m: TagsMap)
    requires d.DMap? && i <= |d.entries|
    ensures WalkEntries(d, i, m) == AddImageRefs(EntryImageStrings(d, i), m)
    decreases d, 0, |d.entries| - i
  {
    if i < |d.entries| {
      var value := d.entries[i].1;
      var rest := EntryImageStrings(d, i + 1);
      if d.entries[i].0 == "image" {
        if value.DString? {
          assert EntryImageStrings(d, i) == [value.s] + rest;
          assert ([value.s] + rest)[1..] == rest;
          match ParseImageRef(value.s)
          case Err(_) =>
          case Ok(ref) => WalkEntriesRecords(d, i + 1, AddTag(m, ref.0, ref.1));
        } else {
          assert EntryImageStrings(d, i) == [] + rest;
          assert [] + rest == rest;
          WalkEntriesRecords(d, i + 1, m);
        }
      } else {
        WalkRecords(value, m);
        AddImageRefsAppend(ImageStrings(value), rest, m);
        match Walk(value, m)
        case Err(_) =>
        case Ok(m') => WalkEntriesRecords(d, i + 1, m');
      }
    }
  }

  lemma {:induction false} WalkItemsRecords(d: Dyn, i: nat, m: TagsMap)
    requires d.DList? && i <= |d.items|
    ensures WalkItems(d, i, m) == AddImageRefs(ItemImageStrings(d, i), m)
    decreases d, 0, |d.items| - i
  {
    if i < |d.items| {
      WalkRecords(d.items[i], m);
      AddImageRefsAppend(ImageStrings(d.items[i]), ItemImageStrings(d, i + 1), m);
      match Walk(d.items[i], m)
      case Err(_) =>
      case Ok(m') => WalkItemsRecords(d, i + 1, m');
    }
  }

  /**
   * Recording references keeps every tag list free of duplicates, keeps what was recorded
   * before, and records each reference's repository with its tag.
   */
  lemma {:induction false} AddImageRefsSpec(refs: seq<string>, m: TagsMap)
    requires NoDupLists(m)
    ensures var r := AddImageRefs(refs, m);
      r.Ok? ==>
        && NoDupLists(r.value)
        && m.Keys <= r.value.Keys
        && (forall k :: k in m ==> m[k] <= r.value[k])
        && (forall i :: 0 <= i < |refs| ==>
              && ParseImageRef(refs[i]).Ok?
              && var ref := ParseImageRef(refs[i]).value;
              && ref.0 in r.value
              && ref.1 in r.value[ref.0])
  {
    if refs != [] {
      match ParseImageRef(refs[0])
      case Err(_) =>
      case Ok(ref) =>
        var m' := AddTag(m, ref.0, ref.1);
        AddTagNoDup(m, ref.0, ref.1);
        AddImageRefsSpec(refs[1..], m');
        var r := AddImageRefs(refs, m);
        if r.Ok? {
          forall k | k in m ensures m[k] <= r.value[k] {
            assert m[k] <= m'[k];
          }
          forall i | 0 <= i < |refs|
            ensures && ParseImageRef(refs[i]).Ok?
                    && var ref := ParseImageRef(refs[i]).value;
                    && ref.0 in r.value
                    && ref.1 in r.value[ref.0]
          {
            if i == 0 {
              assert ref.1 in m'[ref.0];
              assert m'[ref.0] <= r.value[ref.0];
            } else {
              assert refs[i] == refs[1..][i - 1];
            }
          }
        }
    }
  }

  /** `extractImagesFromYaml` on the shared repository-to-tags map. */
  method ExtractImagesFromYaml(data: Dyn, imageMap: TagMap) returns (err: Option<string>)
    modifies imageMap
    ensures err.None? ==> Walk(data, old(imageMap.tags)) == Ok(imageMap.tags)
    ensures err.Some? ==> Walk(data, old(imageMap.tags)) == Err(err.value)
    decreases data, 1
  {
    match data
    case DMap(entries) =>
      var i := 0;
      while i < |entries|
        invariant 0 <= i <= |entries|
        invariant Walk(data, old(imageMap.tags)) == WalkEntries(data, i, imageMap.tags)
      {
        var key := entries[i].0;
        var value := entries[i].1;
        if key == "image" {
          if value.DString? {
            var ref := ParseImageRef(value.s);
            if ref.Err? {
              return Some("failed to parse " + Quote(value.s) + " as image ref: " + ref.error);
            }
            imageMap.Add(ref.value.0, ref.value.1);
          }
        } else {
          ghost var before := imageMap.tags;
          err := ExtractImagesFromYaml(value, imageMap);
          if err.Some? {
            return;
          }
          assert Walk(value, before) == Ok(imageMap.tags);
        }
        i := i + 1;
      }
      err := None;
    case DList(items) =>
      var i := 0;
      while i < |items|
        invariant 0 <= i <= |items|
        invariant Walk(data, old(imageMap.tags)) == WalkItems(data, i, imageMap.tags)
      {
        err := ExtractImagesFromYaml(items[i], imageMap);
        if err.Some? {
          return;
        }
        i := i + 1;
      }
      err := None;
    case _ =>
      err := None;
  }

  // ---------------------------------------------------------------------------
  // The strategy

  /** One `helm template` run: its documents, or the command's error, and the decoder's error after them. */
  datatype Template = Template(chart: string, environment: string, output: Result<seq<Dyn>>, decodeError: Option<string>)

  /** The documents of one run walked in order, then the decoder's error if any. */
  function WalkDocuments(t: Template, docs: seq<Dyn>, m: TagsMap): Result<TagsMap>
  {
    if docs == [] then
      if t.decodeError.Some? then Err("failed to parse template command output as yaml: " + t.decodeError.value)
      else Ok(m)
    else
      match Walk(docs[0], m)
      case Err(e) => Err("failed to extract images from chart " + t.chart + " env " + t.environment + ": " + e)
      case Ok(m') => WalkDocuments(t, docs[1..], m')
  }

  /** The repository-to-tags map after every run, in the order the charts and environments were visited. */
  function HelmMap(runs: seq<Template>, m: TagsMap): Result<TagsMap>
  {
    if runs == [] then Ok(m)
    else
      var t := runs[0];
      match t.output
      case Err(e) => Err("failed to template chart " + t.chart + " for env " + t.environment + ": " + e)
      case Ok(docs) =>
        match WalkDocuments(t, docs, m)
        case Err(e) => Err(e)
        case Ok(m') => HelmMap(runs[1..], m')
  }

  /** The map the runs build has duplicate-free tag lists, and every reference found is in it. */
  lemma {:induction false} HelmMapNoDup(runs: seq<Template>, m: TagsMap)
    requires NoDupLists(m)
    ensures HelmMap(runs, m).Ok? ==> NoDupLists(HelmMap(runs, m).value)
  {
    if runs != [] && runs[0].output.Ok? {
      var t := runs[0];
      WalkDocumentsNoDup(t, t.output.value, m);
      match WalkDocuments(t, t.output.value, m)
      case Err(_) =>
      case Ok(m') => HelmMapNoDup(runs[1..], m');
    }
  }

  lemma {:induction false} WalkDocumentsNoDup(t: Template, docs: seq<Dyn>, m: TagsMap)
    requires NoDupLists(m)
    ensures WalkDocuments(t, docs, m).Ok? ==> NoDupLists(WalkDocuments(t, docs, m).value)
  {
    if docs != [] {
      WalkRecords(docs[0], m);
      AddImageRefsSpec(ImageStrings(docs[0]), m);
      match Walk(docs[0], m)
      case Err(_) =>
      case Ok(m') => WalkDocumentsNoDup(t, docs[1..], m');
    }
  }

  /** The documents of one run, walked into the shared map. */
  method ExtractDocuments(t: Template, docs: seq<Dyn>, imageMap: TagMap) returns (err: Option<string>)
    modifies imageMap
    ensures err.None? ==> WalkDocuments(t, docs, old(imageMap.tags)) == Ok(imageMap.tags)
    ensures err.Some? ==> WalkDocuments(t, docs, old(imageMap.tags)) == Err(err.value)
  {
    var i := 0;
    while i < |docs|
      invariant 0 <= i <= |docs|
      invariant WalkDocuments(t, docs, old(imageMap.tags)) == WalkDocuments(t, docs[i..], imageMap.tags)
    {
      err := ExtractImagesFromYaml(docs[i], imageMap);
      if err.Some? {
        return Some("failed to extract images from chart " + t.chart + " env " + t.environment + ": " + err.value);
      }
      assert docs[i..][1..] == docs[i + 1..];
      i := i + 1;
    }
    if t.decodeError.Some? {
      return Some("failed to parse template command output as yaml: " + t.decodeError.value);
    }
    err := None;
  }

  /** The images whose source is not on the deny list, in order. */
  function Allowed(images: seq<ArtifactFields>, denylist: seq<string>): (r: seq<ArtifactFields>)
    ensures forall v :: v in r <==> v in images && v.sourceArtifact !in denylist
  {
    if images == [] then []
    else
      var init := images[..|images| - 1];
      var last := images[|images| - 1];
      assert images == init + [last];
      Allowed(init, denylist) + (if last.sourceArtifact in denylist then [] else [last])
  }

  /** Filtering keeps the images' sources distinct when they were. */
  lemma {:induction false} AllowedDistinct(images: seq<ArtifactFields>, denylist: seq<string>)
    requires forall i, j :: 0 <= i < j < |images| ==> images[i].sourceArtifact != images[j].sourceArtifact
    ensures forall i, j :: 0 <= i < j < |Allowed(images, denylist)| ==>
      Allowed(images, denylist)[i].sourceArtifact != Allowed(images, denylist)[j].sourceArtifact
  {
    if images != [] {
      var init := images[..|images| - 1];
      var last := images[|images| - 1];
      AllowedDistinct(init, denylist);
      var a := Allowed(init, denylist);
      var r := Allowed(images, denylist);
      assert r == a + (if last.sourceArtifact in denylist then [] else [last]);
      forall v | v in a ensures v.sourceArtifact != last.sourceArtifact {
        var k :| 0 <= k < |init| && init[k] == v;
        assert init[k] == images[k] && last == images[|images| - 1];
      }
      forall i, j | 0 <= i < j < |r| ensures r[i].sourceArtifact != r[j].sourceArtifact {
        if j == |a| {
          assert r[i] == a[i] && r[i] in a && r[j] == last;
        } else {
          assert r[i] == a[i] && r[j] == a[j];
          assert a[i].sourceArtifact != a[j].sourceArtifact;
        }
      }
    }
  }

  method FilterDenied(images: seq<ArtifactFields>, denylist: seq<string>) returns (filtered: seq<ArtifactFields>)
    ensures filtered == Allowed(images, denylist)
  {
    filtered := [];
    var i := 0;
    while i < |images|
      invariant 0 <= i <= |images|
      invariant filtered == Allowed(images[..i], denylist)
    {
      assert images[..i + 1][..i] == images[..i];
      if images[i].sourceArtifact !in denylist {
        filtered := filtered + [images[i]];
      }
      i := i + 1;
    }
    assert images[..i] == images;
  }

  /**
   * The images converted from every repository found, in the enumeration `order`, keep
   * after the deny-list filter one image per undenied repository: its `NewImage`.
   */
  lemma AllowedImages(hl: HelmLatest, found: map<string, seq<string>>, order: seq<string>, images: seq<ArtifactFields>)
    requires forall k :: k in order <==> k in found
    requires NoDup(order)
    requires |images| == |order|
    requires forall i :: 0 <= i < |order| ==>
      Ok(images[i]) == NewImage(order[i], found[order[i]], TargetFor(hl.images, order[i]))
    requires forall i :: 0 <= i < |order| ==> images[i].sourceArtifact == order[i]
    ensures forall i, j :: 0 <= i < j < |Allowed(images, hl.imageDenylist)| ==>
      Allowed(images, hl.imageDenylist)[i].sourceArtifact != Allowed(images, hl.imageDenylist)[j].sourceArtifact
    ensures forall v :: v in Allowed(images, hl.imageDenylist) ==>
      && v.sourceArtifact in found
      && v.sourceArtifact !in hl.imageDenylist
      && Ok(v) == NewImage(v.sourceArtifact, found[v.sourceArtifact], TargetFor(hl.images, v.sourceArtifact))
    ensures forall k :: k in found && k !in hl.imageDenylist ==>
      exists v :: v in Allowed(images, hl.imageDenylist) && v.sourceArtifact == k
  {
    forall i, j | 0 <= i < j < |images| ensures images[i].sourceArtifact != images[j].sourceArtifact {
      assert order[i] != order[j];
    }
    AllowedDistinct(images, hl.imageDenylist);
    forall v | v in Allowed(images, hl.imageDenylist)
      ensures v.sourceArtifact in found
      ensures Ok(v) == NewImage(v.sourceArtifact, found[v.sourceArtifact], TargetFor(hl.images, v.sourceArtifact))
    {
      var i :| 0 <= i < |images| && images[i] == v;
      assert order[i] in order;
    }
    forall k | k in found && k !in hl.imageDenylist ensures exists v :: v in Allowed(images, hl.imageDenylist) && v.sourceArtifact == k {
      var j :| 0 <= j < |order| && order[j] == k;
      assert images[j] in images;
    }
  }

  /**
   * The second half of `GetUpdateImages`: every repository found must be mapped by a
   * configured reference (denied ones included, the check comes first), then the denied
   * repositories are dropped; one image per remaining repository.
   */
  method ConvertFound(hl: HelmLatest, found: map<string, seq<string>>) returns (r: Result<seq<ArtifactFields>>)
    ensures r.Ok? <==> forall k :: k in found ==> Convertible(hl.images, k)
    ensures r.Ok? ==> forall i, j :: 0 <= i < j < |r.value| ==> r.value[i].sourceArtifact != r.value[j].sourceArtifact
    ensures r.Ok? ==>
      && (forall v :: v in r.value ==>
            && v.sourceArtifact in found
            && v.sourceArtifact !in hl.imageDenylist
            && Ok(v) == NewImage(v.sourceArtifact, found[v.sourceArtifact], TargetFor(hl.images, v.sourceArtifact)))
      && (forall k :: k in found && k !in hl.imageDenylist ==> exists v :: v in r.value && v.sourceArtifact == k)
    ensures r.Err? ==>
      exists k :: && k in found
                  && !Convertible(hl.images, k)
                  && r.error == ConvertError(hl.images, k, found[k], (s, e) => "failed to create image: " + e)
  {
    var order := MapOrder(found);
    var images := ImagesFromMap(found, order, hl.images, (s, e) => "failed to create image: " + e);
    if images.Err? {
      return Err(images.error);
    }
    AllowedImages(hl, found, order, images.value);
    var filtered := FilterDenied(images.value, hl.imageDenylist);
    r := Ok(filtered);
  }

  /**
   * `GetUpdateImages` from the template runs on: the images of every repository found,
   * each under its configured reference's target name and with the tags found for it,
   * except the denied ones; a repository without a reference is an error, even a denied one.
   */
  method GetUpdateImages(hl: HelmLatest, runs: seq<Template>) returns (r: Result<seq<ArtifactFields>>)
    ensures HelmMap(runs, map[]).Err? ==> r == Err(HelmMap(runs, map[]).error)
    ensures HelmMap(runs, map[]).Ok? ==>
      (r.Ok? <==> forall k :: k in HelmMap(runs, map[]).value ==> Convertible(hl.images, k))
    ensures r.Ok? ==> forall i, j :: 0 <= i < j < |r.value| ==> r.value[i].sourceArtifact != r.value[j].sourceArtifact
    ensures r.Ok? ==>
      && HelmMap(runs, map[]).Ok?
      && var found := HelmMap(runs, map[]).value;
      && (forall v :: v in r.value ==>
            && v.sourceArtifact in found
            && v.sourceArtifact !in hl.imageDenylist
            && Ok(v) == NewImage(v.sourceArtifact, found[v.sourceArtifact], TargetFor(hl.images, v.sourceArtifact)))
      && (forall k :: k in found && k !in hl.imageDenylist ==> exists v :: v in r.value && v.sourceArtifact == k)
      && (forall k :: k in found ==> NoDup(found[k]))
    ensures r.Err? && HelmMap(runs, map[]).Ok? ==>
      exists k :: && k in HelmMap(runs, map[]).value
                  && !Convertible(hl.images, k)
                  && r.error == ConvertError(hl.images, k, HelmMap(runs, map[]).value[k], (s, e) => "failed to create image: " + e)
  {
    var imageMap := new TagMap();
    var i := 0;
    while i < |runs|
      invariant 0 <= i <= |runs|
      invariant HelmMap(runs, map[]) == HelmMap(runs[i..], imageMap.tags)
    {
      var t := runs[i];
      if t.output.Err? {
        return Err("failed to template chart " + t.chart + " for env " + t.environment + ": " + t.output.error);
      }
      var err := ExtractDocuments(t, t.output.value, imageMap);
      if err.Some? {
        return Err(err.value);
      }
      assert runs[i..][1..] == runs[i + 1..];
      i := i + 1;
    }
    assert HelmMap(runs[i..], imageMap.tags) == Ok(imageMap.tags);
    HelmMapNoDup(runs, map[]);
    r := ConvertFound(hl, imageMap.tags);
  }

  /**
   * `Validate`: a chart repository, at least one chart, and at least one environment per
   * chart; which chart is reported first is left open, as Go's map iteration leaves it.
   */
  method Validate(hl: HelmLatest) returns (r: Outcome)
    ensures r.Pass? <==> hl.helmRepo != "" && |hl.charts| > 0 && forall c :: c in hl.charts ==> |hl.charts[c]| > 0
    ensures hl.helmRepo == "" ==> r == Fail("must specify HelmRepo")
    ensures hl.helmRepo != "" && |hl.charts| == 0 ==> r == Fail("must specify at least one chart in Charts")
    ensures r.Fail? && hl.helmRepo != "" && |hl.charts| > 0 ==>
      exists c :: c in hl.charts && |hl.charts[c]| == 0 && r.error == "chart " + Quote(c) + " must have at least one environment"
  {
    if hl.helmRepo == "" {
      return Fail("must specify HelmRepo");
    }
    if |hl.charts| == 0 {
      return Fail("must specify at least one chart in Charts");
    }
    var remaining := hl.charts.Keys;
    while remaining != {}
      invariant remaining <= hl.charts.Keys
      invariant forall c :: c in hl.charts.Keys - remaining ==> |hl.charts[c]| > 0
      decreases |remaining|
    {
      var c :| c in remaining;
      if |hl.charts[c]| == 0 {
        return Fail("chart " + Quote(c) + " must have at least one environment");
      }
      remaining := remaining - {c};
    }
    return Pass;
  }
}
