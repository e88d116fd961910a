/**
 * The artifact accumulator: artifacts merged by their identity (source reference and
 * target name). The first artifact seen for an identity is stored as is; later ones
 * add their missing tags to it in place. `TagDifference` answers which tags of an
 * artifact are not accounted for yet.
 *
 * The abstract state is `Contents()`, the tag list per identity; `Merge`, `AddAll`,
 * `AppendNew` and `Missing` specify the operations on it.
 */
module Accumulator {
  import opened Wrappers
  import opened Artifacts

  datatype ArtifactIndex = ArtifactIndex(sourceArtifact: string, targetArtifactName: string)

  function IndexOf(a: Artifact): ArtifactIndex
    reads a`sourceArtifact, a`specifiedTargetArtifactName, a`defaultTargetArtifactName
  {
    ArtifactIndex(a.sourceArtifact, a.TargetArtifactName())
  }

  predicate NoDup(s: seq<string>)
  {
    forall i, j :: 0 <= i < j < |s| ==> s[i] != s[j]
  }

  // ---------------------------------------------------------------------------
  // Tag lists

  /** The tags of `tags` that `stored` does not hold, in their order in `tags`. */
  function Missing(tags: seq<string>, stored: seq<string>): (r: seq<string>)
    ensures forall t :: t in r <==> t in tags && t !in stored
  {
    Kept(tags, set t | t in stored)
  }

  /** `incoming` appended to `existing`, skipping every tag already present. */
  function AppendNew(existing: seq<string>, incoming: seq<string>): (r: seq<string>)
    ensures existing <= r
    ensures forall t :: t in r <==> t in existing || t in incoming
  {
    if incoming == [] then existing
    else
      var prev := AppendNew(existing, incoming[..|incoming| - 1]);
      var t := incoming[|incoming| - 1];
      assert incoming == incoming[..|incoming| - 1] + [t];
      if t in prev then prev else prev + [t]
  }

  /** Merging never introduces a duplicate into a duplicate-free list. */
  lemma {:induction false} AppendNewNoDup(existing: seq<string>, incoming: seq<string>)
    requires NoDup(existing)
    ensures NoDup(AppendNew(existing, incoming))
  {
    if incoming != [] {
      AppendNewNoDup(existing, incoming[..|incoming| - 1]);
    }
  }

  /** Merging tags that are all present already changes nothing. */
  lemma {:induction false} AppendNewSubsumed(existing: seq<string>, incoming: seq<string>)
    requires forall t :: t in incoming ==> t in existing
    ensures AppendNew(existing, incoming) == existing
  {
    if incoming != [] {
      AppendNewSubsumed(existing, incoming[..|incoming| - 1]);
      assert incoming[|incoming| - 1] in incoming;
    }
  }

  /**
   * For duplicate-free incoming tags, merging appends exactly the missing ones, in their
   * incoming order.
   */
  lemma {:induction false} AppendNewIsMissing(existing: seq<string>, incoming: seq<string>)
    requires NoDup(incoming)
    ensures AppendNew(existing, incoming) == existing + Missing(incoming, existing)
  {
    if incoming != [] {
      var init := incoming[..|incoming| - 1];
      var t := incoming[|incoming| - 1];
      AppendNewIsMissing(existing, init);
      assert t !in init by {
        forall i | 0 <= i < |init| ensures init[i] != t {
          assert incoming[i] != incoming[|incoming| - 1];
        }
      }
      assert t in AppendNew(existing, init) <==> t in existing;
      assert incoming[..|incoming| - 1] == init;
    }
  }

  // ---------------------------------------------------------------------------
  // Contents

  type Contents = map<ArtifactIndex, seq<string>>

  /** Adding one artifact: a new identity takes its tags, a known one merges them. */
  function Merge(c: Contents, k: ArtifactIndex, tags: seq<string>): (r: Contents)
    ensures r.Keys == c.Keys + {k}
    ensures forall k' | k' in c && k' != k :: r[k'] == c[k']
    ensures forall t :: t in r[k] <==> (k in c && t in c[k]) || t in tags
  {
    if k in c then c[k := AppendNew(c[k], tags)] else c[k := tags]
  }

  /** Adding artifacts one after the other, in list order. */
  function AddAll(c: Contents, entries: seq<(ArtifactIndex, seq<string>)>): Contents
  {
    if entries == [] then c
    else
      var last := entries[|entries| - 1];
      Merge(AddAll(c, entries[..|entries| - 1]), last.0, last.1)
  }

  /** Adding the first `i + 1` entries is adding the first `i`, then entry `i`. */
  lemma AddAllPrefix(c: Contents, entries: seq<(ArtifactIndex, seq<string>)>, i: int)
    requires 0 <= i < |entries|
    ensures AddAll(c, entries[..i + 1]) == Merge(AddAll(c, entries[..i]), entries[i].0, entries[i].1)
  {
    assert entries[..i + 1][..i] == entries[..i];
  }

  /** The identities a list of entries names. */
  function KeysOf(entries: seq<(ArtifactIndex, seq<string>)>): set<ArtifactIndex>
  {
    set j | 0 <= j < |entries| :: entries[j].0
  }

  lemma KeysOfSnoc(entries: seq<(ArtifactIndex, seq<string>)>)
    requires entries != []
    ensures KeysOf(entries) == KeysOf(entries[..|entries| - 1]) + {entries[|entries| - 1].0}
  {
    var init := entries[..|entries| - 1];
    forall x | x in KeysOf(entries) ensures x in KeysOf(init) + {entries[|entries| - 1].0} {
      var j :| 0 <= j < |entries| && entries[j].0 == x;
      if j < |init| { assert init[j].0 == x; }
    }
    forall x | x in KeysOf(init) ensures x in KeysOf(entries) {
      var j :| 0 <= j < |init| && init[j].0 == x;
      assert entries[j].0 == x;
    }
  }

  /**
   * Adding never loses anything: every identity stays present, with every tag it had,
   * and every added identity and tag is present afterwards.
   */
  lemma {:induction false} AddAllGrows(c: Contents, entries: seq<(ArtifactIndex, seq<string>)>)
    ensures AddAll(c, entries).Keys == c.Keys + KeysOf(entries)
    ensures forall k, t | k in c && t in c[k] :: t in AddAll(c, entries)[k]
    ensures forall j, t | 0 <= j < |entries| && t in entries[j].1 :: t in AddAll(c, entries)[entries[j].0]
  {
    if entries != [] {
      var init := entries[..|entries| - 1];
      var last := entries[|entries| - 1];
      var prev := AddAll(c, init);
      var r := AddAll(c, entries);
      assert r == Merge(prev, last.0, last.1);
      AddAllGrows(c, init);
      KeysOfSnoc(entries);
      forall k, t | k in prev && t in prev[k] ensures t in r[k] {
        if k != last.0 { assert r[k] == prev[k]; }
      }
      forall j, t | 0 <= j < |entries| && t in entries[j].1 ensures t in r[entries[j].0] {
        if j < |init| { assert init[j] == entries[j]; }
      }
    }
  }

  /** Adding the same tags twice is adding them once. */
  lemma MergeIdempotent(c: Contents, k: ArtifactIndex, tags: seq<string>)
    ensures Merge(Merge(c, k, tags), k, tags) == Merge(c, k, tags)
  {
    AppendNewSubsumed(Merge(c, k, tags)[k], tags);
  }

  /**
   * Idempotence of the update flow: once the difference of an artifact against the
   * contents has been added, the artifact has no difference left.
   */
  lemma DifferenceThenAdd(c: Contents, k: ArtifactIndex, tags: seq<string>)
    ensures var d := if k in c then Missing(tags, c[k]) else tags;
      Missing(tags, Merge(c, k, d)[k]) == []
  {
    var d := if k in c then Missing(tags, c[k]) else tags;
    KeptAllExcluded(tags, set t | t in Merge(c, k, d)[k]);
  }

  /** A list whose every tag is excluded keeps nothing. */
  lemma {:induction false} KeptAllExcluded(tags: seq<string>, excluded: set<string>)
    requires forall t :: t in tags ==> t in excluded
    ensures Kept(tags, excluded) == []
  {
    if tags != [] {
      KeptAllExcluded(tags[..|tags| - 1], excluded);
    }
  }

  /**
   * The difference is one-sided: stored tags that the artifact does not have play no role,
   * so adding such tags to the store leaves the difference unchanged.
   */
  lemma {:induction false} MissingOneSided(tags: seq<string>, stored: seq<string>, extra: seq<string>)
    requires forall t :: t in extra ==> t !in tags
    ensures Missing(tags, stored + extra) == Missing(tags, stored)
  {
    var s1, s2 := set t | t in stored + extra, set t | t in stored;
    KeptAgree(tags, s1, s2);
  }

  /** Exclusion sets that agree on the tags at hand keep the same tags. */
  lemma {:induction false} KeptAgree(tags: seq<string>, s1: set<string>, s2: set<string>)
    requires forall t :: t in tags ==> (t in s1 <==> t in s2)
    ensures Kept(tags, s1) == Kept(tags, s2)
  {
    if tags != [] {
      KeptAgree(tags[..|tags| - 1], s1, s2);
    }
  }

  // ---------------------------------------------------------------------------
  // The accumulator

  /** The identity and the current tags of each artifact of a list. */
  function Entries(arts: seq<Artifact>): (r: seq<(ArtifactIndex, seq<string>)>)
    reads arts
    ensures |r| == |arts|
    ensures forall j :: 0 <= j < |arts| ==> r[j] == (IndexOf(arts[j]), arts[j].tags)
  {
    if arts == [] then []
    else Entries(arts[..|arts| - 1]) + [(IndexOf(arts[|arts| - 1]), arts[|arts| - 1].tags)]
  }

  /** The identity of an artifact's fields: what `IndexOf` computes on the object. */
  function Key(v: ArtifactFields): ArtifactIndex
  {
    ArtifactIndex(v.sourceArtifact, TargetName(v))
  }

  /** The fields of every artifact, in order. */
  function Views(arts: seq<Artifact>): (r: seq<ArtifactFields>)
    reads arts
    ensures |r| == |arts|
    ensures forall i :: 0 <= i < |arts| ==> r[i] == arts[i].View()
  {
    seq(|arts|, i requires 0 <= i < |arts| reads arts => arts[i].View())
  }

  /**
   * What `TagDifference` reports for an artifact against the accumulated contents: an
   * error, nothing missing, or the identity and tags of the difference artifact.
   */
  function Difference(v: ArtifactFields, c: Contents): Result<Option<(ArtifactIndex, seq<string>)>>
  {
    var k := Key(v);
    if k !in c then Ok(Some((k, v.tags)))
    else
      match Defaults(v.sourceArtifact, v.doNotMirror)
      case Err(e) => Err("failed to construct new artifact from passed artifact: " + e)
      case Ok(d) =>
        var missing := Missing(v.tags, c[k]);
        if missing == [] then Ok(None)
        else Ok(Some((ArtifactIndex(v.sourceArtifact, EffectiveName(TargetName(v), d.0)), missing)))
  }

  /**
   * An unknown identity is all new; a known one fails exactly when its defaults cannot be
   * derived, and otherwise yields precisely the tags the contents lack, or nothing when it
   * lacks none.
   */
  lemma DifferenceSpec(v: ArtifactFields, c: Contents)
    ensures var r := Difference(v, c);
      && (Key(v) !in c ==> r == Ok(Some((Key(v), v.tags))))
      && (r.Ok? && r.value.Some? ==>
            && r.value.value.0.sourceArtifact == v.sourceArtifact
            && (forall t :: t in r.value.value.1 <==> t in v.tags && (Key(v) !in c || t !in c[Key(v)])))
      && (Key(v) in c && r.Ok? ==> (r.value.None? <==> forall t :: t in v.tags ==> t in c[Key(v)]))
      && (r.Err? <==> Key(v) in c && Defaults(v.sourceArtifact, v.doNotMirror).Err?)
  {
    if Key(v) in c && Difference(v, c).Ok? && Difference(v, c).value.Some? {
      var missing := Missing(v.tags, c[Key(v)]);
      assert missing[0] in missing;
    }
  }

  /** The first position at or after `i` whose identity is that of entry `j`. */
  function FirstFrom(entries: seq<(ArtifactIndex, seq<string>)>, j: nat, i: nat): (f: nat)
    requires i <= j < |entries|
    requires forall i' | 0 <= i' < i :: entries[i'].0 != entries[j].0
    ensures f <= j && entries[f].0 == entries[j].0
    ensures forall i' | 0 <= i' < f :: entries[i'].0 != entries[j].0
    decreases j - i
  {
    if entries[i].0 == entries[j].0 then i else FirstFrom(entries, j, i + 1)
  }

  /** The position of the first entry with the identity of entry `j`. */
  function FirstOf(entries: seq<(ArtifactIndex, seq<string>)>, j: nat): (f: nat)
    requires j < |entries|
    ensures f <= j && entries[f].0 == entries[j].0
    ensures forall i | 0 <= i < f :: entries[i].0 != entries[j].0
  {
    FirstFrom(entries, j, 0)
  }

  /** Entries with the same identity have the same first entry. */
  lemma FirstOfSame(entries: seq<(ArtifactIndex, seq<string>)>, a: nat, b: nat)
    requires a < |entries| && b < |entries| && entries[a].0 == entries[b].0
    ensures FirstOf(entries, a) == FirstOf(entries, b)
  {
  }

  /**
   * `mapping` stores each identity that the first `i` entries add to `m0` with the first
   * artifact of the list that has it, and holds no other identity beyond `m0`.
   */
  ghost predicate StoresFirst(mapping: map<ArtifactIndex, Artifact>, newArtifacts: seq<Artifact>, i: int,
                              entries: seq<(ArtifactIndex, seq<string>)>, m0: map<ArtifactIndex, Artifact>)
    requires 0 <= i <= |newArtifacts| == |entries|
  {
    && (forall j | 0 <= j < i && entries[j].0 !in m0 ::
          entries[j].0 in mapping && mapping[entries[j].0] == newArtifacts[FirstOf(entries, j)])
    && (forall k | k in mapping && k !in m0 :: exists j :: 0 <= j < i && entries[j].0 == k)
  }

  /** Adding entry `i`, which stores `newArtifacts[i]` only if its identity is new, keeps `StoresFirst`. */
  lemma StoresFirstStep(m1: map<ArtifactIndex, Artifact>, m2: map<ArtifactIndex, Artifact>,
                        newArtifacts: seq<Artifact>, i: int,
                        entries: seq<(ArtifactIndex, seq<string>)>, m0: map<ArtifactIndex, Artifact>)
    requires 0 <= i < |newArtifacts| == |entries|
    requires StoresFirst(m1, newArtifacts, i, entries, m0)
    requires forall k | k in m0 :: k in m1
    requires m2.Keys == m1.Keys + {entries[i].0}
    requires forall k | k in m1 :: m2[k] == m1[k]
    requires forall k | k in m2 && k !in m1 :: m2[k] == newArtifacts[i]
    ensures StoresFirst(m2, newArtifacts, i + 1, entries, m0)
  {
    var key := entries[i].0;
    forall j | 0 <= j < i + 1 && entries[j].0 !in m0
      ensures entries[j].0 in m2 && m2[entries[j].0] == newArtifacts[FirstOf(entries, j)]
    {
      if j == i {
        if key in m1 {
          var j' :| 0 <= j' < i && entries[j'].0 == key;
          FirstOfSame(entries, i, j');
        } else {
          assert FirstOf(entries, i) == i;
        }
      }
    }
    forall k | k in m2 && k !in m0 ensures exists j :: 0 <= j < i + 1 && entries[j].0 == k {
      if k == key {
        assert entries[i].0 == k;
      } else {
        var j :| 0 <= j < i && entries[j].0 == k;
        assert 0 <= j < i + 1 && entries[j].0 == k;
      }
    }
  }

  /** `AddArtifacts`' inner loop: appends each tag of `incoming` that `existing` lacks. */
  method AppendMissingTags(existing: Artifact, incoming: seq<string>)
    modifies existing`tags
    ensures existing.tags == AppendNew(old(existing.tags), incoming)
  {
    var i := 0;
    while i < |incoming|
      invariant 0 <= i <= |incoming|
      invariant existing.tags == AppendNew(old(existing.tags), incoming[..i])
    {
      var newTag := incoming[i];
      assert incoming[..i + 1][..i] == incoming[..i];
      if newTag !in existing.tags {
        existing.tags := existing.tags + [newTag];
      }
      i := i + 1;
    }
    assert incoming[..i] == incoming;
  }

  /** `TagDifference`'s loop: appends each tag of `incoming` that `stored` lacks. */
  method AppendTagsNotIn(target: Artifact, incoming: seq<string>, stored: seq<string>)
    modifies target`tags
    ensures target.tags == old(target.tags) + Missing(incoming, stored)
  {
    var i := 0;
    while i < |incoming|
      invariant 0 <= i <= |incoming|
      invariant target.tags == old(target.tags) + Missing(incoming[..i], stored)
    {
      var tag := incoming[i];
      assert incoming[..i + 1][..i] == incoming[..i];
      if tag !in stored {
        target.tags := target.tags + [tag];
      }
      i := i + 1;
    }
    assert incoming[..i] == incoming;
  }

  class ArtifactAccumulator {
    var mapping: map<ArtifactIndex, Artifact>

    /** Every artifact is stored under its own identity. */
    ghost predicate Valid()
      reads this, mapping.Values
    {
      forall k | k in mapping :: IndexOf(mapping[k]) == k
    }

    ghost function Contents(): Contents
      reads this, mapping.Values
    {
      map k | k in mapping :: mapping[k].tags
    }

    constructor ()
      ensures Valid() && mapping == map[]
    {
      mapping := map[];
    }

    /**
     * One round of `AddArtifacts`' loop: `newArtifact` is added with the tags it had when
     * the call began. Its current tags differ from those only when it is itself the artifact
     * stored for its identity, which then holds them all.
     */
    method AddArtifact(newArtifact: Artifact, ghost tags: seq<string>)
      requires Valid()
      requires newArtifact.tags == tags
        || (IndexOf(newArtifact) in mapping && mapping[IndexOf(newArtifact)] == newArtifact
            && forall t | t in tags :: t in newArtifact.tags)
      modifies this`mapping, (if IndexOf(newArtifact) in mapping then {mapping[IndexOf(newArtifact)]} else {})`tags
      ensures Valid()
      ensures Contents() == Merge(old(Contents()), IndexOf(newArtifact), tags)
      ensures mapping.Keys == old(mapping.Keys) + {IndexOf(newArtifact)}
      ensures forall k | k in old(mapping) :: mapping[k] == old(mapping[k])
      ensures forall k | k in mapping && k !in old(mapping) :: mapping[k] == newArtifact
    {
      var pair := IndexOf(newArtifact);
      if pair !in mapping {
        mapping := mapping[pair := newArtifact];
        assert Contents() == old(Contents())[pair := tags];
      } else {
        var existingArtifact := mapping[pair];
        assert AppendNew(existingArtifact.tags, newArtifact.tags) == AppendNew(existingArtifact.tags, tags) by {
          if newArtifact.tags != tags {
            AppendNewSubsumed(existingArtifact.tags, newArtifact.tags);
            AppendNewSubsumed(existingArtifact.tags, tags);
          }
        }
        AppendMissingTags(existingArtifact, newArtifact.tags);
        forall k | k in mapping && k != pair ensures mapping[k] != existingArtifact {
          assert IndexOf(mapping[k]) == k;
        }
        assert Contents() == old(Contents())[pair := existingArtifact.tags];
      }
    }

    /**
     * Every artifact from index `i` on still has the tags it had when `AddArtifacts` began
     * or, when it is itself the stored artifact for its identity, at least those.
     */
    ghost predicate Pending(newArtifacts: seq<Artifact>, i: int, entries: seq<(ArtifactIndex, seq<string>)>)
      requires 0 <= i <= |newArtifacts| == |entries|
      reads this, mapping.Values, newArtifacts
    {
      forall j | i <= j < |newArtifacts| ::
        newArtifacts[j].tags == entries[j].1
        || (entries[j].0 in mapping && mapping[entries[j].0] == newArtifacts[j]
            && forall t | t in entries[j].1 :: t in newArtifacts[j].tags)
    }

    /**
     * Every artifact before index `i` still has the tags it had when `AddArtifacts` began,
     * unless it is itself the stored artifact for its identity.
     */
    ghost predicate Settled(newArtifacts: seq<Artifact>, i: int, entries: seq<(ArtifactIndex, seq<string>)>)
      requires 0 <= i <= |newArtifacts| == |entries|
      reads this, newArtifacts
    {
      forall j | 0 <= j < i ::
        newArtifacts[j].tags == entries[j].1
        || (entries[j].0 in mapping && mapping[entries[j].0] == newArtifacts[j])
    }

    /**
     * The state `AddArtifacts` keeps after adding `newArtifacts[..i]`: the contents are those
     * of adding the first `i` entries, old identities keep their objects, new ones store an
     * artifact of the list, and the artifacts still to come are `Pending`.
     */
    ghost predicate Progress(newArtifacts: seq<Artifact>, i: int, entries: seq<(ArtifactIndex, seq<string>)>,
                             c0: Contents, m0: map<ArtifactIndex, Artifact>)
      reads this, mapping.Values, newArtifacts
    {
      && 0 <= i <= |newArtifacts| == |entries|
      && Valid()
      && Contents() == AddAll(c0, entries[..i])
      && (forall k | k in m0 :: k in mapping && mapping[k] == m0[k])
      && (forall k | k in mapping && k !in m0 :: mapping[k] in newArtifacts)
      && (forall j | 0 <= j < |newArtifacts| :: IndexOf(newArtifacts[j]) == entries[j].0)
      && Pending(newArtifacts, i, entries)
      && Settled(newArtifacts, i, entries)
      && StoresFirst(mapping, newArtifacts, i, entries, m0)
    }

    /**
     * `AddArtifact` on entry `i` of the list: no artifact's tags change but those of the
     * artifact already stored for entry `i`'s identity.
     */
    method AddFramed(newArtifacts: seq<Artifact>, i: int, ghost entries: seq<(ArtifactIndex, seq<string>)>)
      requires 0 <= i < |newArtifacts| == |entries|
      requires Valid() && IndexOf(newArtifacts[i]) == entries[i].0
      requires newArtifacts[i].tags == entries[i].1
        || (entries[i].0 in mapping && mapping[entries[i].0] == newArtifacts[i]
            && forall t | t in entries[i].1 :: t in newArtifacts[i].tags)
      modifies this`mapping, mapping.Values`tags
      ensures Valid()
      ensures Contents() == Merge(old(Contents()), entries[i].0, entries[i].1)
      ensures mapping.Keys == old(mapping.Keys) + {entries[i].0}
      ensures forall k | k in old(mapping) :: k in mapping && mapping[k] == old(mapping[k])
      ensures forall k | k in mapping && k !in old(mapping) :: mapping[k] == newArtifacts[i]
      ensures forall j | 0 <= j < |newArtifacts| ::
        newArtifacts[j].tags == old(newArtifacts[j].tags)
        || (entries[i].0 in old(mapping) && newArtifacts[j] == old(mapping[entries[i].0]))
    {
      AddArtifact(newArtifacts[i], entries[i].1);
    }

    /**
     * `AddArtifact` on entry `i` of the list, which keeps the artifacts before it `Settled`.
     */
    method AddSettled(newArtifacts: seq<Artifact>, i: int, ghost entries: seq<(ArtifactIndex, seq<string>)>)
      requires 0 <= i < |newArtifacts| == |entries|
      requires Valid() && Pending(newArtifacts, i, entries) && Settled(newArtifacts, i, entries)
      requires forall j | 0 <= j < |newArtifacts| :: IndexOf(newArtifacts[j]) == entries[j].0
      modifies this`mapping, mapping.Values`tags
      ensures Valid()
      ensures Contents() == Merge(old(Contents()), entries[i].0, entries[i].1)
      ensures mapping.Keys == old(mapping.Keys) + {entries[i].0}
      ensures forall k | k in old(mapping) :: k in mapping && mapping[k] == old(mapping[k])
      ensures forall k | k in mapping && k !in old(mapping) :: mapping[k] == newArtifacts[i]
      ensures forall j | i + 1 <= j < |newArtifacts| ::
        newArtifacts[j] == mapping[entries[i].0] || newArtifacts[j].tags == old(newArtifacts[j].tags)
      ensures Settled(newArtifacts, i + 1, entries)
    {
      ghost var key := entries[i].0;
      AddFramed(newArtifacts, i, entries);
      forall j | 0 <= j < i + 1
        ensures newArtifacts[j].tags == entries[j].1
          || (entries[j].0 in mapping && mapping[entries[j].0] == newArtifacts[j])
      {
        var a := newArtifacts[j];
        if j < i && a.tags != old(a.tags) {
          assert IndexOf(a) == key;
        }
      }
    }

    /**
     * `AddArtifact` on entry `i` of the list, which keeps the later artifacts `Pending`:
     * the only artifact whose tags change is the one stored under entry `i`'s identity,
     * and it only gains tags.
     */
    method AddEntry(newArtifacts: seq<Artifact>, i: int, ghost entries: seq<(ArtifactIndex, seq<string>)>)
      requires 0 <= i < |newArtifacts| == |entries|
      requires Valid() && Pending(newArtifacts, i, entries) && Settled(newArtifacts, i, entries)
      requires forall j | 0 <= j < |newArtifacts| :: IndexOf(newArtifacts[j]) == entries[j].0
      modifies this`mapping, mapping.Values`tags
      ensures Valid()
      ensures Contents() == Merge(old(Contents()), entries[i].0, entries[i].1)
      ensures mapping.Keys == old(mapping.Keys) + {entries[i].0}
      ensures forall k | k in old(mapping) :: k in mapping && mapping[k] == old(mapping[k])
      ensures forall k | k in mapping && k !in old(mapping) :: mapping[k] == newArtifacts[i]
      ensures Pending(newArtifacts, i + 1, entries) && Settled(newArtifacts, i + 1, entries)
    {
      ghost var key := entries[i].0;
      AddSettled(newArtifacts, i, entries);
      forall j | i + 1 <= j < |newArtifacts|
        ensures newArtifacts[j].tags == entries[j].1
          || (entries[j].0 in mapping && mapping[entries[j].0] == newArtifacts[j]
              && forall t | t in entries[j].1 :: t in newArtifacts[j].tags)
      {
        var a := newArtifacts[j];
        if a == mapping[key] {
          if key in old(mapping) {
            assert old(mapping[key]) == a;
            assert old(Contents())[key] == old(a.tags);
          } else {
            assert a == newArtifacts[i];
          }
        }
      }
    }

    /** One round of `AddArtifacts`' loop, with the proof that it keeps `Progress`. */
    method AddNext(newArtifacts: seq<Artifact>, i: int, ghost entries: seq<(ArtifactIndex, seq<string>)>,
                   ghost c0: Contents, ghost m0: map<ArtifactIndex, Artifact>)
      requires Progress(newArtifacts, i, entries, c0, m0) && i < |newArtifacts|
      modifies this`mapping, mapping.Values`tags
      ensures Progress(newArtifacts, i + 1, entries, c0, m0)
    {
      AddAllPrefix(c0, entries, i);
      ghost var m1 := mapping;
      AddEntry(newArtifacts, i, entries);
      assert newArtifacts[i] in newArtifacts;
      StoresFirstStep(m1, mapping, newArtifacts, i, entries, m0);
    }

    /**
     * `AddArtifacts`: the contents become those of adding the artifacts one after the
     * other; each identity seen for the first time stores that very artifact object, and
     * only the tags of stored artifacts change.
     */
    method AddArtifacts(newArtifacts: seq<Artifact>)
      requires Valid()
      modifies this`mapping, mapping.Values`tags, newArtifacts`tags
      ensures Valid()
      ensures Contents() == AddAll(old(Contents()), old(Entries(newArtifacts)))
      ensures forall k | k in old(mapping) :: k in mapping && mapping[k] == old(mapping[k])
      ensures forall k | k in mapping && k !in old(mapping) :: mapping[k] in newArtifacts
      ensures forall j | 0 <= j < |newArtifacts| :: Contains(newArtifacts[j])
      ensures forall j | 0 <= j < |newArtifacts| ::
        old(Entries(newArtifacts))[j].0 in mapping
        && (newArtifacts[j].tags == old(Entries(newArtifacts))[j].1
            || mapping[old(Entries(newArtifacts))[j].0] == newArtifacts[j])
      ensures forall j | 0 <= j < |newArtifacts| && old(Entries(newArtifacts))[j].0 !in old(mapping) ::
        mapping[old(Entries(newArtifacts))[j].0] == newArtifacts[FirstOf(old(Entries(newArtifacts)), j)]
    {
      ghost var entries := Entries(newArtifacts);
      ghost var c0 := Contents();
      ghost var m0 := mapping;
      ProgressStart(newArtifacts, entries);
      var i := 0;
      while i < |newArtifacts|
        invariant Progress(newArtifacts, i, entries, c0, m0)
      {
        AddNext(newArtifacts, i, entries, c0, m0);
        i := i + 1;
      }
      ProgressDone(newArtifacts, entries, c0, m0);
      ProgressStoresFirst(newArtifacts, entries, c0, m0);
    }

    /** Once every entry is added, each new identity holds the first artifact of the list with it. */
    lemma ProgressStoresFirst(newArtifacts: seq<Artifact>, entries: seq<(ArtifactIndex, seq<string>)>,
                              c0: Contents, m0: map<ArtifactIndex, Artifact>)
      requires |entries| == |newArtifacts| && Progress(newArtifacts, |newArtifacts|, entries, c0, m0)
      ensures forall j | 0 <= j < |entries| && entries[j].0 !in m0 ::
        entries[j].0 in mapping && mapping[entries[j].0] == newArtifacts[FirstOf(entries, j)]
    {
      assert StoresFirst(mapping, newArtifacts, |newArtifacts|, entries, m0);
    }

    /** Before any entry is added, every artifact is `Pending` and nothing is yet stored for the list. */
    lemma ProgressStart(newArtifacts: seq<Artifact>, entries: seq<(ArtifactIndex, seq<string>)>)
      requires Valid() && entries == Entries(newArtifacts)
      ensures Progress(newArtifacts, 0, entries, Contents(), mapping)
    {
      assert entries[..0] == [];
    }

    /** Once every entry is added, the contents are the merge of all of them and every artifact's identity is stored. */
    lemma ProgressDone(newArtifacts: seq<Artifact>, entries: seq<(ArtifactIndex, seq<string>)>,
                       c0: Contents, m0: map<ArtifactIndex, Artifact>)
      requires |entries| == |newArtifacts| && Progress(newArtifacts, |newArtifacts|, entries, c0, m0)
      ensures Valid()
      ensures forall k | k in m0 :: k in mapping && mapping[k] == m0[k]
      ensures forall k | k in mapping && k !in m0 :: mapping[k] in newArtifacts
      ensures Contents() == AddAll(c0, entries)
      ensures forall j | 0 <= j < |newArtifacts| :: Contains(newArtifacts[j])
      ensures forall j | 0 <= j < |newArtifacts| ::
        entries[j].0 in mapping && (newArtifacts[j].tags == entries[j].1 || mapping[entries[j].0] == newArtifacts[j])
    {
      assert entries[..|newArtifacts|] == entries;
      AddAllGrows(c0, entries);
      forall j | 0 <= j < |newArtifacts| ensures Contains(newArtifacts[j]) {
        assert entries[j].0 in KeysOf(entries);
      }
    }

    /**
     * `TagDifference`: the artifact itself for an unknown identity; otherwise a new artifact
     * with the same identity holding the tags the store lacks (in the artifact's order), or
     * nothing when none is missing. Building that artifact fails like `NewArtifact` does.
     */
    method TagDifference(artifact: Artifact) returns (r: Result<Artifact?>)
      requires Valid()
      ensures IndexOf(artifact) !in mapping ==> r.Ok? && r.value == artifact
      ensures IndexOf(artifact) in mapping ==>
        var missing := Missing(artifact.tags, mapping[IndexOf(artifact)].tags);
        && (r.Ok? <==> Defaults(artifact.sourceArtifact, artifact.doNotMirror).Ok?)
        && (r.Err? ==> r.error == "failed to construct new artifact from passed artifact: "
                                  + Defaults(artifact.sourceArtifact, artifact.doNotMirror).error)
        && (r.Ok? && missing == [] ==> r.value == null)
        && (r.Ok? && missing != [] ==>
              r.value != null
              && r.value.tags == missing
              && r.value.sourceArtifact == artifact.sourceArtifact
              && IndexOf(r.value) == ArtifactIndex(artifact.sourceArtifact,
                   EffectiveName(artifact.TargetArtifactName(), Defaults(artifact.sourceArtifact, artifact.doNotMirror).value.0))
              && r.value.doNotMirror == artifact.doNotMirror
              && r.value.targetRepositories == artifact.targetRepositories)
    {
      var index := IndexOf(artifact);
      if index !in mapping {
        return Ok(artifact as Artifact?);
      }
      var existingArtifact := mapping[index];
      var created := Artifact.NewArtifact(artifact.sourceArtifact, [], artifact.TargetArtifactName(),
        artifact.doNotMirror, artifact.targetRepositories);
      if created.Err? {
        return Err("failed to construct new artifact from passed artifact: " + created.error);
      }
      var artifactToReturn := created.value;
      AppendTagsNotIn(artifactToReturn, artifact.tags, existingArtifact.tags);
      if |artifactToReturn.tags| == 0 {
        return Ok(null);
      }
      r := Ok(artifactToReturn);
    }

    /** `Artifacts`: every stored artifact exactly once, in an unspecified order. */
    method Artifacts() returns (artifacts: seq<Artifact>)
      requires Valid()
      ensures |artifacts| == |mapping|
      ensures forall a :: a in artifacts <==> a in mapping.Values
      ensures forall i, j :: 0 <= i < j < |artifacts| ==> IndexOf(artifacts[i]) != IndexOf(artifacts[j])
    {
      artifacts := [];
      var remaining := mapping.Keys;
      while remaining != {}
        invariant remaining <= mapping.Keys
        invariant |artifacts| + |remaining| == |mapping|
        invariant forall a :: a in artifacts <==> exists k :: k in mapping.Keys - remaining && mapping[k] == a
        invariant forall i :: 0 <= i < |artifacts| ==> IndexOf(artifacts[i]) !in remaining
        invariant forall i, j :: 0 <= i < j < |artifacts| ==> IndexOf(artifacts[i]) != IndexOf(artifacts[j])
        decreases |remaining|
      {
        var k :| k in remaining;
        artifacts := artifacts + [mapping[k]];
        remaining := remaining - {k};
      }
    }

    /** `Contains`: whether an artifact with the same identity is stored; tags play no role. */
    function Contains(artifact: Artifact): (present: bool)
      reads this, artifact`sourceArtifact, artifact`specifiedTargetArtifactName, artifact`defaultTargetArtifactName
    {
      IndexOf(artifact) in mapping
    }
  }
}
