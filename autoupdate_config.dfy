/**
 * The autoupdate configuration entries and the part of `Run` that decides what to update:
 * entry validation, the selection of the tag differences against the mirror
 * configuration, the change-set hash and the branch it names, the pull-request tag count
 * and the order `Write` stores entries in.
 *
 * Each strategy's own `Validate` is modelled with its strategy; here its outcome is a
 * parameter. SHA-256 (FIPS 180-4) is a parameter too; base32 (section 6 of RFC 4648) is
 * written out in module Base32.
 */
module AutoupdateConfig {
  import opened Wrappers
  import opened Text
  import opened Sorting
  import opened Dynamic
  import opened Artifacts
  import opened Accumulator
  import opened Configuration
  import Base32

  datatype StrategyKind = GithubReleaseStrategy | HelmLatestStrategy | RegistryStrategy

  /** A `ConfigEntry`: its name, which of its three strategies are set, and its reviewers. */
  datatype ConfigEntry = ConfigEntry(
    name: string,
    githubRelease: bool,
    helmLatest: bool,
    registry: bool,
    reviewers: seq<string>)

  function StrategyCount(entry: ConfigEntry): nat
  {
    (if entry.githubRelease then 1 else 0) + (if entry.helmLatest then 1 else 0)
    + (if entry.registry then 1 else 0)
  }

  /** The strategy that is set, tested in the order the Go code tests them. */
  function Strategy(entry: ConfigEntry): StrategyKind
  {
    if entry.githubRelease then GithubReleaseStrategy
    else if entry.helmLatest then HelmLatestStrategy
    else RegistryStrategy
  }

  function StrategyName(kind: StrategyKind): string
  {
    match kind
    case GithubReleaseStrategy => "GithubRelease"
    case HelmLatestStrategy => "HelmLatest"
    case RegistryStrategy => "Registry"
  }

  // ---------------------------------------------------------------------------
  // Validation

  /** The check of one reviewer: a user name or "org/team". */
  function ReviewerCheck(reviewer: string): Outcome
  {
    var parts := Split(reviewer, '/');
    if |parts| > 2 then
      Fail("invalid reviewer format for " + Quote(reviewer) + ": must be a username or in 'org/team' format")
    else if |parts| == 2 && (parts[0] == "" || parts[1] == "") then
      Fail("invalid reviewer format for " + Quote(reviewer) + ": org and team must not be empty")
    else
      Pass
  }

  /** The reviewers loop: the first reviewer that fails decides. */
  function ReviewersCheck(reviewers: seq<string>): Outcome
  {
    if reviewers == [] then Pass
    else if ReviewerCheck(reviewers[0]).Fail? then ReviewerCheck(reviewers[0])
    else ReviewersCheck(reviewers[1..])
  }

  /** A user name or "org/team": at most one "/", and never as the first or last character. */
  predicate WellFormedReviewer(reviewer: string)
  {
    && (forall i, j :: 0 <= i < j < |reviewer| && reviewer[i] == '/' ==> reviewer[j] != '/')
    && (|reviewer| > 0 ==> reviewer[0] != '/' && reviewer[|reviewer| - 1] != '/')
  }

  /** The reviewer check accepts exactly the well-formed reviewers. */
  lemma ReviewerFormat(reviewer: string)
    ensures ReviewerCheck(reviewer).Pass? <==> WellFormedReviewer(reviewer)
  {
    if '/' in reviewer {
      var i := FirstSlash(reviewer);
      var org, team := reviewer[..i], reviewer[i + 1..];
      assert reviewer == org + ['/'] + team;
      SplitNoSep(org, '/');
      SplitAround(org, team, '/');
      if '/' !in team {
        SplitNoSep(team, '/');
        OneSlash(reviewer, i);
      } else {
        SplitSeveral(team, '/');
        var j :| 0 <= j < |team| && team[j] == '/';
        assert reviewer[i + 1 + j] == '/';
      }
    } else {
      SplitNoSep(reviewer, '/');
      assert forall j :: 0 <= j < |reviewer| ==> reviewer[j] in reviewer;
    }
  }

  /** With a single "/", being well formed means non-empty text on both sides of it. */
  lemma OneSlash(reviewer: string, i: nat)
    requires i < |reviewer| && reviewer[i] == '/'
    requires '/' !in reviewer[..i] && '/' !in reviewer[i + 1..]
    ensures WellFormedReviewer(reviewer) <==> reviewer[..i] != "" && reviewer[i + 1..] != ""
  {
    var org, team := reviewer[..i], reviewer[i + 1..];
    assert forall j :: 0 <= j < i ==> reviewer[j] == org[j];
    assert forall j :: i < j < |reviewer| ==> reviewer[j] == team[j - i - 1];
  }

  /** The position of the first "/". */
  lemma {:induction false} FirstSlash(s: string) returns (i: nat)
    requires '/' in s
    ensures i < |s| && s[i] == '/' && '/' !in s[..i]
  {
    if s[0] == '/' {
      i := 0;
    } else {
      assert '/' in s[1..];
      var k := FirstSlash(s[1..]);
      i := k + 1;
      assert s[..i] == [s[0]] + s[1..][..k];
    }
  }

  /** The reviewers loop passes exactly when every reviewer is well formed. */
  lemma {:induction false} ReviewersCheckSpec(reviewers: seq<string>)
    ensures ReviewersCheck(reviewers).Pass? <==> forall r :: r in reviewers ==> WellFormedReviewer(r)
    ensures ReviewersCheck(reviewers).Fail? ==>
      exists k :: 0 <= k < |reviewers| && ReviewersCheck(reviewers) == ReviewerCheck(reviewers[k])
        && forall j :: 0 <= j < k ==> WellFormedReviewer(reviewers[j])
  {
    if reviewers != [] {
      ReviewerFormat(reviewers[0]);
      ReviewersCheckSpec(reviewers[1..]);
      assert reviewers == [reviewers[0]] + reviewers[1..];
      if ReviewerCheck(reviewers[0]).Pass? && ReviewersCheck(reviewers).Fail? {
        var k :| 0 <= k < |reviewers[1..]| && ReviewersCheck(reviewers[1..]) == ReviewerCheck(reviewers[1..][k])
          && forall j :: 0 <= j < k ==> WellFormedReviewer(reviewers[1..][j]);
        assert ReviewersCheck(reviewers) == ReviewerCheck(reviewers[k + 1]);
        forall j | 0 <= j < k + 1 ensures WellFormedReviewer(reviewers[j]) {
          if j > 0 { assert reviewers[j] == reviewers[1..][j - 1]; }
        }
      }
    }
  }

  /**
   * `ConfigEntry.Validate`; `check` is the `Validate` of the strategy that is set.
   * The checks run in this order: the name, the number of strategies, the strategy itself,
   * then the reviewers.
   */
  function Validate(entry: ConfigEntry, check: StrategyKind -> Outcome): Outcome
  {
    if entry.name == "" then Fail("must specify Name")
    else if StrategyCount(entry) > 1 then Fail("must specify only one autoupdate strategy")
    else if StrategyCount(entry) == 0 then Fail("must specify an autoupdate strategy")
    else if check(Strategy(entry)).Fail? then
      Fail(StrategyName(Strategy(entry)) + " failed validation: " + check(Strategy(entry)).error)
    else if |entry.reviewers| == 0 then Fail("must specify at least one reviewer")
    else ReviewersCheck(entry.reviewers)
  }

  /**
   * An entry is valid exactly when it has a name, exactly one strategy, which is itself
   * valid, and at least one reviewer, every one of them well formed.
   */
  lemma ValidateSpec(entry: ConfigEntry, check: StrategyKind -> Outcome)
    ensures Validate(entry, check).Pass? <==>
      && entry.name != ""
      && StrategyCount(entry) == 1
      && check(Strategy(entry)).Pass?
      && |entry.reviewers| >= 1
      && forall r :: r in entry.reviewers ==> WellFormedReviewer(r)
    ensures entry.name == "" ==> Validate(entry, check) == Fail("must specify Name")
    ensures entry.name != "" && StrategyCount(entry) >= 2 ==>
      Validate(entry, check) == Fail("must specify only one autoupdate strategy")
    ensures entry.name != "" && StrategyCount(entry) == 0 ==>
      Validate(entry, check) == Fail("must specify an autoupdate strategy")
  {
    ReviewersCheckSpec(entry.reviewers);
  }

  /** `Parse`'s validation loop: the first invalid entry decides. */
  function ValidateEntries(entries: seq<ConfigEntry>, check: StrategyKind -> Outcome): Outcome
  {
    if entries == [] then Pass
    else
      var first := Validate(entries[0], check);
      if first.Fail? then Fail("entry " + Quote(entries[0].name) + " failed validation: " + first.error)
      else ValidateEntries(entries[1..], check)
  }

  lemma {:induction false} ValidateEntriesSpec(entries: seq<ConfigEntry>, check: StrategyKind -> Outcome)
    ensures ValidateEntries(entries, check).Pass? <==> forall e :: e in entries ==> Validate(e, check).Pass?
  {
    if entries != [] {
      ValidateEntriesSpec(entries[1..], check);
      assert entries == [entries[0]] + entries[1..];
    }
  }

  // ---------------------------------------------------------------------------
  // Choosing the updates (the loop of `Run`)

  /** The differences of the fetched artifacts, in fetch order; the first failure stops the loop. */
  function Selected(c: Contents, vs: seq<ArtifactFields>): Result<seq<(ArtifactIndex, seq<string>)>>
  {
    if vs == [] then Ok([])
    else
      var prev :- Selected(c, vs[..|vs| - 1]);
      var v := vs[|vs| - 1];
      match Difference(v, c)
      case Err(e) => Err("failed to get tag difference for artifact " + v.sourceArtifact + ": " + e)
      case Ok(None) => Ok(prev)
      case Ok(Some(p)) => Ok(prev + [p])
  }

  /** Once a prefix of the fetched artifacts fails, the whole selection fails the same way. */
  lemma {:induction false} SelectedPrefixErr(c: Contents, vs: seq<ArtifactFields>, i: nat)
    requires i <= |vs| && Selected(c, vs[..i]).Err?
    ensures Selected(c, vs) == Selected(c, vs[..i])
    decreases |vs| - i
  {
    if i < |vs| {
      assert vs[..i + 1][..i] == vs[..i];
      SelectedPrefixErr(c, vs, i + 1);
    } else {
      assert vs[..i] == vs;
    }
  }

  /** The fields `setDefaults` derives the default target name from agree with it. */
  predicate DefaultedFields(v: ArtifactFields)
  {
    Defaults(v.sourceArtifact, v.doNotMirror).Ok?
    && Defaults(v.sourceArtifact, v.doNotMirror).value.0 == v.defaultTargetArtifactName
  }

  /**
   * Every fetched artifact with defaults set is accounted for: its difference succeeds and,
   * when it is not empty, is among the selected entries; the selected tags of a known
   * identity are never stored already.
   */
  lemma {:induction false} SelectedMember(c: Contents, vs: seq<ArtifactFields>)
    requires Selected(c, vs).Ok?
    ensures forall j | 0 <= j < |vs| :: Difference(vs[j], c).Ok?
    ensures forall j | 0 <= j < |vs| && Difference(vs[j], c).value.Some? ::
      Difference(vs[j], c).value.value in Selected(c, vs).value
    ensures forall p | p in Selected(c, vs).value :: exists j :: 0 <= j < |vs| && Difference(vs[j], c) == Ok(Some(p))
  {
    SelectedForward(c, vs);
    SelectedBackward(c, vs);
  }

  /** Every fetched artifact has a difference, and each nonempty one is selected. */
  lemma {:induction false} SelectedForward(c: Contents, vs: seq<ArtifactFields>)
    requires Selected(c, vs).Ok?
    ensures forall j | 0 <= j < |vs| :: Difference(vs[j], c).Ok?
    ensures forall j | 0 <= j < |vs| && Difference(vs[j], c).value.Some? ::
      Difference(vs[j], c).value.value in Selected(c, vs).value
  {
    if vs != [] {
      var init := vs[..|vs| - 1];
      SelectedForward(c, init);
      forall j | 0 <= j < |vs| - 1 ensures vs[j] == init[j] { }
    }
  }

  /** Every selected entry is the difference of some fetched artifact. */
  lemma {:induction false} SelectedBackward(c: Contents, vs: seq<ArtifactFields>)
    requires Selected(c, vs).Ok?
    ensures forall p | p in Selected(c, vs).value :: exists j :: 0 <= j < |vs| && Difference(vs[j], c) == Ok(Some(p))
  {
    if vs != [] {
      var init := vs[..|vs| - 1];
      SelectedBackward(c, init);
      forall j | 0 <= j < |vs| - 1 ensures vs[j] == init[j] { }
    }
  }

  /**
   * Applying the selected entries to the stored tags accounts for every fetched artifact
   * with defaults set: its identity is stored and holds each of its tags.
   */
  lemma SelectedCovers(c: Contents, vs: seq<ArtifactFields>)
    requires Selected(c, vs).Ok?
    requires forall j | 0 <= j < |vs| :: DefaultedFields(vs[j])
    ensures var after := AddAll(c, Selected(c, vs).value);
      forall j | 0 <= j < |vs| :: Key(vs[j]) in after && forall t | t in vs[j].tags :: t in after[Key(vs[j])]
  {
    var sel := Selected(c, vs).value;
    var after := AddAll(c, sel);
    SelectedMember(c, vs);
    AddAllGrows(c, sel);
    forall j | 0 <= j < |vs|
      ensures Key(vs[j]) in after && forall t | t in vs[j].tags :: t in after[Key(vs[j])]
    {
      var v := vs[j];
      var k := Key(v);
      var d := Difference(v, c).value;
      if d.Some? {
        var n :| 0 <= n < |sel| && sel[n] == d.value;
        assert d.value.0 == k;
        assert k in KeysOf(sel);
      }
    }
  }

  /**
   * Autoupdate reaches a fixed point: once the selected entries are added, choosing the
   * updates for the same fetched artifacts again finds nothing.
   */
  lemma SelectedIdempotent(c: Contents, vs: seq<ArtifactFields>)
    requires Selected(c, vs).Ok?
    requires forall j | 0 <= j < |vs| :: DefaultedFields(vs[j])
    ensures Selected(AddAll(c, Selected(c, vs).value), vs) == Ok([])
  {
    var after := AddAll(c, Selected(c, vs).value);
    SelectedCovers(c, vs);
    NothingMissing(after, vs);
  }

  lemma {:induction false} NothingMissing(c: Contents, vs: seq<ArtifactFields>)
    requires forall j | 0 <= j < |vs| :: DefaultedFields(vs[j])
    requires forall j | 0 <= j < |vs| :: Key(vs[j]) in c && forall t | t in vs[j].tags :: t in c[Key(vs[j])]
    ensures Selected(c, vs) == Ok([])
  {
    if vs != [] {
      var n := |vs| - 1;
      var v := vs[n];
      forall j | 0 <= j < n ensures vs[..n][j] == vs[j] { }
      NothingMissing(c, vs[..n]);
      var k := Key(v);
      KeptAllExcluded(v.tags, set t | t in c[k]);
    }
  }

  /** `TagDifference` stated as `Difference` of the artifact's fields against the stored tags. */
  method DifferenceOf(acc: ArtifactAccumulator, artifact: Artifact) returns (d: Result<Artifact?>)
    requires acc.Valid()
    ensures var expected := Difference(artifact.View(), acc.Contents());
      && (d.Err? <==> expected.Err?)
      && (d.Err? ==> d.error == expected.error)
      && (d.Ok? ==> (d.value == null <==> expected.value.None?))
      && (d.Ok? && d.value != null ==> expected.value == Some((IndexOf(d.value), d.value.tags)))
  {
    d := acc.TagDifference(artifact);
  }

  /** Selecting over one more fetched artifact. */
  lemma SelectedStep(c: Contents, vs: seq<ArtifactFields>, i: nat, chosen: seq<(ArtifactIndex, seq<string>)>)
    requires i < |vs| && Selected(c, vs[..i]) == Ok(chosen)
    ensures Selected(c, vs[..i + 1]) ==
      match Difference(vs[i], c)
      case Err(e) => Err("failed to get tag difference for artifact " + vs[i].sourceArtifact + ": " + e)
      case Ok(None) => Ok(chosen)
      case Ok(Some(p)) => Ok(chosen + [p])
  {
    assert vs[..i + 1][..i] == vs[..i];
  }

  /**
   * `Run`'s loop after `i` fetched artifacts: the updates so far are the entries selected
   * so far, or `failure` holds the error that stopped the loop.
   */
  ghost predicate Chosen(c: Contents, vs: seq<ArtifactFields>, i: int, chosen: seq<(ArtifactIndex, seq<string>)>,
                         updates: seq<Artifact>, failure: Option<string>)
    reads updates
  {
    && 0 <= i <= |vs|
    && (failure.None? ==> Selected(c, vs[..i]) == Ok(chosen))
    && (failure.Some? ==> Selected(c, vs[..i]) == Err(failure.value))
    && |updates| == |chosen|
    && forall j :: 0 <= j < |updates| ==> chosen[j] == (IndexOf(updates[j]), updates[j].tags)
  }

  /** One round of `Run`'s loop. */
  method SelectNext(acc: ArtifactAccumulator, artifact: Artifact, i: nat, updates: seq<Artifact>,
                    ghost c: Contents, ghost vs: seq<ArtifactFields>, ghost chosen: seq<(ArtifactIndex, seq<string>)>)
    returns (failure: Option<string>, updates': seq<Artifact>, ghost chosen': seq<(ArtifactIndex, seq<string>)>)
    requires acc.Valid() && acc.Contents() == c
    requires i < |vs| && artifact.View() == vs[i]
    requires Chosen(c, vs, i, chosen, updates, None)
    ensures Chosen(c, vs, i + 1, chosen', updates', failure)
  {
    var d := DifferenceOf(acc, artifact);
    SelectedStep(c, vs, i, chosen);
    updates', chosen' := updates, chosen;
    failure := None;
    if d.Err? {
      failure := Some("failed to get tag difference for artifact " + artifact.sourceArtifact + ": " + d.error);
    } else if d.value != null {
      chosen' := chosen + [(IndexOf(d.value), d.value.tags)];
      updates' := updates + [d.value];
    }
  }

  /** `Run`'s loop over the fetched artifacts, against the accumulator of the configuration. */
  method SelectUpdates(acc: ArtifactAccumulator, newArtifacts: seq<Artifact>) returns (r: Result<seq<Artifact>>)
    requires acc.Valid()
    ensures r.Ok? <==> Selected(acc.Contents(), Views(newArtifacts)).Ok?
    ensures r.Err? ==> r.error == Selected(acc.Contents(), Views(newArtifacts)).error
    ensures r.Ok? ==> Entries(r.value) == Selected(acc.Contents(), Views(newArtifacts)).value
  {
    ghost var c := acc.Contents();
    ghost var vs := Views(newArtifacts);
    ghost var chosen: seq<(ArtifactIndex, seq<string>)> := [];
    var updates: seq<Artifact> := [];
    var failure: Option<string> := None;
    var i := 0;
    while i < |newArtifacts| && failure.None?
      invariant i <= |newArtifacts|
      invariant Chosen(c, vs, i, chosen, updates, failure)
      invariant acc.Contents() == c
      invariant forall j :: 0 <= j < |newArtifacts| ==> newArtifacts[j].View() == vs[j]
    {
      failure, updates, chosen := SelectNext(acc, newArtifacts[i], i, updates, c, vs, chosen);
      i := i + 1;
    }
    assert Views(newArtifacts) == vs;
    if failure.Some? {
      SelectedPrefixErr(c, vs, i);
      r := Err(failure.value);
    } else {
      assert vs[..i] == vs;
      r := Ok(updates);
    }
  }

  // ---------------------------------------------------------------------------
  // The change-set hash (`hashArtifactSet`)

  /** Every artifact's full references (`<source>:<tag>`), artifact by artifact. */
  function FullReferences(arts: seq<Artifact>): seq<string>
    reads arts
  {
    if arts == [] then []
    else
      var last := arts[|arts| - 1];
      FullReferences(arts[..|arts| - 1]) + Combined(last.sourceArtifact, last.tags)
  }

  /** The strings written to the hasher, one after the other. */
  function Concat(parts: seq<string>): string
  {
    if parts == [] then "" else Concat(parts[..|parts| - 1]) + parts[|parts| - 1]
  }

  /** A SHA-256 digest: 32 bytes. */
  type Sha256Digest = d: seq<bv8> | |d| == 32 witness seq(32, i => 0 as bv8)

  /**
   * The first 8 characters of the lower-cased base32 text of the SHA-256 digest of `data`;
   * `sha` stands for SHA-256 (FIPS 180-4) over the bytes of the text.
   */
  function BranchHash(data: string, sha: string -> Sha256Digest): (h: string)
    ensures |h| == 8
    ensures forall j :: 0 <= j < 8 ==> Base32.IsLowerSymbol(h[j])
  {
    var text := Base32.Encode(sha(data));
    Base32.EncodePrefix(sha(data));
    LowerSymbols(text);
    ToLowerAscii(text)[..8]
  }

  lemma LowerSymbols(text: string)
    requires |text| >= 8 && forall j :: 0 <= j < 8 ==> Base32.IsSymbol(text[j])
    ensures |ToLowerAscii(text)| == |text|
    ensures var h := ToLowerAscii(text)[..8]; |h| == 8 && forall j :: 0 <= j < 8 ==> Base32.IsLowerSymbol(h[j])
  {
  }

  /** Lower-casing works character by character, so it commutes with taking a prefix. */
  lemma LowerPrefix(t1: string, t2: string, n: nat)
    requires n <= |t1| && n <= |t2| && t1[..n] == t2[..n]
    ensures ToLowerAscii(t1)[..n] == ToLowerAscii(t2)[..n]
  {
    forall j | 0 <= j < n ensures ToLowerAscii(t1)[j] == ToLowerAscii(t2)[j] {
      assert t1[j] == t1[..n][j] && t2[j] == t2[..n][j];
    }
  }

  /** The hash depends on the first 5 bytes of the digest only, and on nothing else. */
  lemma BranchHashPrefix(d1: string, d2: string, sha: string -> Sha256Digest)
    requires sha(d1)[..5] == sha(d2)[..5]
    ensures BranchHash(d1, sha) == BranchHash(d2, sha)
  {
    Base32.EncodePrefix(sha(d1));
    Base32.EncodePrefix(sha(d2));
    LowerPrefix(Base32.Encode(sha(d1)), Base32.Encode(sha(d2)), 8);
  }

  lemma FullReferencesPrefix(arts: seq<Artifact>, i: int)
    requires 0 <= i < |arts|
    ensures FullReferences(arts[..i + 1]) == FullReferences(arts[..i]) + Combined(arts[i].sourceArtifact, arts[i].tags)
  {
    assert arts[..i + 1][..i] == arts[..i];
  }

  lemma {:induction false} ConcatAppend(a: seq<string>, b: seq<string>)
    ensures Concat(a + b) == Concat(a) + Concat(b)
    decreases |b|
  {
    if b == [] {
      assert a + b == a;
    } else {
      var init := b[..|b| - 1];
      assert (a + b)[..|a + b| - 1] == a + init;
      assert (a + b)[|a + b| - 1] == b[|b| - 1];
      ConcatAppend(a, init);
      assert Concat(a + b) == Concat(a + init) + b[|b| - 1];
      assert Concat(b) == Concat(init) + b[|b| - 1];
    }
  }

  /** Writing one artifact's full references into the hasher, one after the other. */
  method WriteReferences(data: string, full: seq<string>) returns (data': string)
    ensures data' == data + Concat(full)
  {
    data' := data;
    var j := 0;
    while j < |full|
      invariant 0 <= j <= |full|
      invariant data' == data + Concat(full[..j])
    {
      assert full[..j + 1][..j] == full[..j];
      data' := data' + full[j];
      j := j + 1;
    }
    assert full[..j] == full;
  }

  /** One artifact's references appended to the data written so far. */
  lemma HashInputStep(arts: seq<Artifact>, i: int, data: string, full: seq<string>, data': string)
    requires 0 <= i < |arts|
    requires data == Concat(FullReferences(arts[..i]))
    requires full == Combined(arts[i].sourceArtifact, arts[i].tags)
    requires data' == data + Concat(full)
    ensures data' == Concat(FullReferences(arts[..i + 1]))
  {
    FullReferencesPrefix(arts, i);
    ConcatAppend(FullReferences(arts[..i]), full);
  }

  /** Writing artifact `i`'s full references after those of the artifacts before it. */
  method WriteArtifact(arts: seq<Artifact>, i: int, data: string) returns (data': string)
    requires 0 <= i < |arts|
    requires data == Concat(FullReferences(arts[..i]))
    ensures data' == Concat(FullReferences(arts[..i + 1]))
  {
    var full := arts[i].CombineSourceArtifactAndTags();
    data' := WriteReferences(data, full);
    HashInputStep(arts, i, data, full, data');
  }

  /** Writing the full references of each artifact into the hasher, in order. */
  method HashInput(arts: seq<Artifact>) returns (data: string)
    ensures data == Concat(FullReferences(arts))
  {
    data := "";
    var i := 0;
    while i < |arts|
      invariant 0 <= i <= |arts|
      invariant data == Concat(FullReferences(arts[..i]))
    {
      data := WriteArtifact(arts, i, data);
      i := i + 1;
    }
    assert arts[..i] == arts;
  }

  /** The second half of `hashArtifactSet`: the hash of the full references, in list order. */
  method HashSorted(arts: seq<Artifact>, sha: string -> Sha256Digest) returns (h: string)
    ensures h == BranchHash(Concat(FullReferences(arts)), sha)
  {
    var data := HashInput(arts);
    h := BranchHash(data, sha);
  }

  /** Every listed artifact holds its `original` tags, sorted. */
  ghost predicate HoldsSortedTags(arts: seq<Artifact>, original: map<Artifact, seq<string>>)
    reads arts
  {
    forall a | a in arts :: a in original && a.tags == SortStrings(original[a])
  }

  /** `hashArtifactSet`'s first loop: every artifact's tags sorted in place. */
  method SortTags(arts: array<Artifact>)
    modifies arts[..]`tags
    ensures HoldsSortedTags(arts[..], old(TagsOf(arts[..])))
  {
    ghost var original := TagsOf(arts[..]);
    SortEachArtifact(arts[..]);
  }

  /** `slices.SortStableFunc(artifacts, CompareArtifacts)` on the slice itself. */
  method SortSlice(arts: array<Artifact>)
    modifies arts
    ensures arts[..] == old(SortArtifacts(arts[..]))
  {
    var sorted := SortArtifacts(arts[..]);
    SortArtifactsPermutation(arts[..]);
    assert |sorted| == |multiset(sorted)| == arts.Length;
    forall i | 0 <= i < arts.Length {
      arts[i] := sorted[i];
    }
  }

  /** The first half of `hashArtifactSet`: every artifact's tags sorted, then the artifacts. */
  method SortForHash(arts: array<Artifact>)
    modifies arts, arts[..]`tags
    ensures HoldsSortedTags(old(arts[..]), old(TagsOf(arts[..])))
    ensures arts[..] == old(SortArtifacts(arts[..]))
  {
    ghost var before := arts[..];
    ghost var keyed := Keyed(before);
    SortTags(arts);
    assert arts[..] == before;
    assert Keyed(arts[..]) == keyed;
    SortSlice(arts);
    assert HoldsSortedTags(before, old(TagsOf(arts[..])));
  }

  /**
   * `hashArtifactSet`: sorts every artifact's tags and the artifacts themselves in place,
   * then hashes their full references in that order.
   */
  method HashArtifactSet(arts: array<Artifact>, sha: string -> Sha256Digest) returns (h: string)
    modifies arts, arts[..]`tags
    ensures HoldsSortedTags(old(arts[..]), old(TagsOf(arts[..])))
    ensures arts[..] == old(SortArtifacts(arts[..]))
    ensures h == BranchHash(Concat(FullReferences(arts[..])), sha)
  {
    SortForHash(arts);
    var sorted := arts[..];
    h := HashSorted(sorted, sha);
    assert arts[..] == sorted;
  }

  /** How often each pair occurs among the keyed artifacts. */
  lemma {:induction false} KeyedCount(arts: seq<Artifact>, x: (seq<string>, Artifact))
    ensures multiset(Keyed(arts))[x] == if x.0 == x.1.Key() then multiset(arts)[x.1] else 0
  {
    if arts != [] {
      var init, last := arts[..|arts| - 1], arts[|arts| - 1];
      KeyedCount(init, x);
      assert multiset(Keyed(arts))[x] == multiset(Keyed(init))[x] + if x == (last.Key(), last) then 1 else 0 by {
        assert Keyed(arts) == Keyed(init) + [(last.Key(), last)];
      }
      var whole: multiset<Artifact>, front: multiset<Artifact> := multiset(arts), multiset(init);
      assert whole[x.1] == front[x.1] + if x.1 == last then 1 else 0 by {
        assert arts == init + [last];
      }
    }
  }

  /**
   * The hash ignores the order the artifacts come in: any reordering of artifacts with
   * distinct identities sorts to the same list.
   */
  lemma SortArtifactsOrderFree(p: seq<Artifact>, q: seq<Artifact>)
    requires multiset(p) == multiset(q)
    requires forall i, j :: 0 <= i < j < |p| ==> p[i].Key() != p[j].Key()
    ensures SortArtifacts(p) == SortArtifacts(q)
  {
    var kp, kq := Keyed(p), Keyed(q);
    forall x ensures multiset(kp)[x] == multiset(kq)[x] {
      KeyedCount(p, x);
      KeyedCount(q, x);
    }
    assert multiset(kp) == multiset(kq);
    forall x, y | x in kp && y in kp && PairKey(x) == PairKey(y) ensures x == y {
      var i :| 0 <= i < |kp| && kp[i] == x;
      var j :| 0 <= j < |kp| && kp[j] == y;
      assert p[i].Key() == p[j].Key();
    }
    SortByPermutation(kp, kq, PairKey);
  }

  /** The hash ignores the order of each artifact's tags too: equal tag multisets sort alike. */
  lemma SortedTagsOrderFree(t1: seq<string>, t2: seq<string>)
    requires multiset(t1) == multiset(t2)
    ensures SortStrings(t1) == SortStrings(t2)
  {
    SortStringsPermutation(t1, t2);
  }

  // ---------------------------------------------------------------------------
  // The branch

  /** The branch `Run` pushes a change set to: "autoupdate/<entry name>/<hash>". */
  function BranchName(name: string, hash: string): (b: string)
    ensures |b| == 12 + |name| + |hash|
    ensures b[..11] == "autoupdate/" && b[11..11 + |name|] == name
    ensures b[11 + |name|] == '/' && b[12 + |name|..] == hash
  {
    "autoupdate/" + name + "/" + hash
  }

  /**
   * Branch names tell change sets apart: two names with hashes of the same length (as
   * `BranchHash`'s always are) are equal only for the same entry name and the same hash.
   */
  lemma BranchNameInjective(n1: string, h1: string, n2: string, h2: string)
    requires |h1| == |h2|
    requires BranchName(n1, h1) == BranchName(n2, h2)
    ensures n1 == n2 && h1 == h2
  {
    var b := BranchName(n1, h1);
    assert |n1| == |n2|;
    assert n1 == b[11..11 + |n1|] == n2;
    assert h1 == b[12 + |n1|..] == h2;
  }

  /** What `Run` does once the updates are selected: nothing when there are none, else push to a branch. */
  datatype RunPlan = NoUpdates | PushBranch(branchName: string)

  /**
   * The end of `Run` before the pull-request calls: with no updates it returns without
   * hashing or naming a branch; otherwise the updates are sorted in place by
   * `hashArtifactSet` and named by the hash of their full references.
   */
  method PlanBranch(name: string, updates: array<Artifact>, sha: string -> Sha256Digest) returns (plan: RunPlan)
    modifies updates, updates[..]`tags
    ensures updates.Length == 0 ==> plan == NoUpdates
    ensures updates.Length > 0 ==>
      && HoldsSortedTags(old(updates[..]), old(TagsOf(updates[..])))
      && updates[..] == old(SortArtifacts(updates[..]))
      && plan == PushBranch(BranchName(name, BranchHash(Concat(FullReferences(updates[..])), sha)))
  {
    if updates.Length == 0 {
      return NoUpdates;
    }
    var hash := HashArtifactSet(updates, sha);
    plan := PushBranch(BranchName(name, hash));
  }

  // ---------------------------------------------------------------------------
  // Writing the entries

  /** `Write`'s order: entries by name, compared as `strings.Compare` does. */
  function NameKey(entry: ConfigEntry): seq<string>
  {
    [entry.name]
  }

  /**
   * `Write`'s `slices.SortStableFunc` on the caller's slice: the entries sorted by name, the
   * same entries, and entries with equal names in their old order.
   */
  method SortEntries(entries: array<ConfigEntry>)
    modifies entries
    ensures entries[..] == SortBy(old(entries[..]), NameKey)
    ensures SortedBy(entries[..], NameKey)
    ensures multiset(entries[..]) == multiset(old(entries[..]))
    ensures forall name :: FilterKey(entries[..], NameKey, [name]) == FilterKey(old(entries[..]), NameKey, [name])
  {
    var sorted := SortBy(entries[..], NameKey);
    SortBySortedBy(entries[..], NameKey);
    forall name ensures FilterKey(sorted, NameKey, [name]) == FilterKey(entries[..], NameKey, [name]) {
      SortByStable(entries[..], NameKey, [name]);
    }
    forall i | 0 <= i < entries.Length {
      entries[i] := sorted[i];
    }
  }

  /** Writing an already written list keeps its order: `Write`'s sort is idempotent. */
  lemma WriteOrderIdempotent(entries: seq<ConfigEntry>)
    ensures SortBy(SortBy(entries, NameKey), NameKey) == SortBy(entries, NameKey)
  {
    SortBySortedBy(entries, NameKey);
    SortBySorted(SortBy(entries, NameKey), NameKey);
  }

  // ---------------------------------------------------------------------------
  // The pull request

  /** The number of tags the updates add. */
  function TagCount(arts: seq<Artifact>): nat
    reads arts
  {
    if arts == [] then 0 else TagCount(arts[..|arts| - 1]) + |arts[|arts| - 1].tags|
  }

  /** The pull-request title counts one tag per full reference the updates list. */
  lemma {:induction false} TagCountReferences(arts: seq<Artifact>)
    ensures TagCount(arts) == |FullReferences(arts)|
  {
    if arts != [] {
      TagCountReferences(arts[..|arts| - 1]);
    }
  }

  /** The tag-count loop of `CreateArtifactUpdatePullRequest`. */
  method CountTags(arts: seq<Artifact>) returns (count: nat)
    ensures count == |FullReferences(arts)|
  {
    count := 0;
    var i := 0;
    while i < |arts|
      invariant 0 <= i <= |arts|
      invariant count == TagCount(arts[..i])
    {
      assert arts[..i + 1][..i] == arts[..i];
      count := count + |arts[i].tags|;
      i := i + 1;
    }
    assert arts[..i] == arts;
    TagCountReferences(arts);
  }
}
