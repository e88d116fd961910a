# image-mirror, modelled in Dafny

This project models the mirror-configuration engine of rancher/image-mirror and proves
properties of it. The model covers:

- **Artifacts.** An artifact is a source reference with tags, a target name and exclusion
  rules. It is expanded into the copy directives ("sync" entries) of the downstream sync
  tool, regsync.
- **The accumulator.** It merges artifacts keyed by source and target name. It also answers
  the one-sided tag difference that the autoupdate flow relies on to be idempotent.
- **The configuration.** This covers sorting it, deduplicating regsync logins and
  concatenating directives.
- **The autoupdate entries.** This covers validating them, selecting updates, naming
  branches and building the order-independent input of the change-set hash.
- **The four update strategies.** These are the registry tag listing, GitHub releases
  (all of them or only the latest), the Helm chart walk and the tagged images file. Each becomes the
  images it offers.
- **The CLI validators.** They check a configuration against its merge base.
- **The older generation of the same model.** This is the Image-named configuration and
  accumulator, the root `generateRegsyncYaml`, the legacy images list, and the Python script
  that retrieves image tags.

One module corresponds to one source file or component:

| file | module | source |
|---|---|---|
| wrappers.dfy | Wrappers | Option, Result and Outcome (pass or the error message) |
| text.dfy | Text | the Go `strings` functions the code uses (Split, Join, SplitN, TrimPrefix, TrimSpace, HasPrefix) |
| ordering.dfy, sorting.dfy | Ordering, Sorting | `strings.Compare` and the stable sorts (`slices.Sort`, `slices.SortStableFunc`) |
| dynamic.dfy | Dynamic | decoded YAML values (`any`) and `%q` quoting |
| regsync.dfy | Regsync | the regsync directive and login records |
| repository.dfy, artifact.dfy, accumulator.dfy, config.dfy, image.dfy | Repositories, Artifacts, Accumulator, Configuration, Images | tools/internal/config |
| autoupdate_config.dfy, base32.dfy | AutoupdateConfig, Base32 | tools/internal/autoupdate/config.go |
| strategy.dfy | Strategies | what the update strategies share |
| registry.dfy, githubrelease.dfy, githublatestrelease.dfy, helm_latest.dfy, tagged_images_file.dfy | Registry, GithubReleases, GithubLatestReleases, HelmLatest, TaggedImagesFile | the strategies in tools/internal/autoupdate |
| validators.dfy | Validators | the validators in tools/main.go |
| legacy_config.dfy, root_main.dfy, legacy_list.dfy | LegacyConfig, RootMain, LegacyList | tools/pkg/config, main.go, tools/pkg/legacy/list.go |
| retrieve_tags.dfy | RetrieveImageTags | retrieve-image-tags/retrieve-image-tags.py |

The code decides whenever it and the design description of the system disagree:

- **Self-exclusion with a default target name.** The description gives an example of an
  artifact "test-org/img" with the default target name that yields no directive for the
  repository "docker.io/test-org". The code compares the source with base URL + "/" +
  target name, after trimming one "docker.io/". The default name "mirrored-test-org-img"
  therefore never equals "img", and the artifact is mirrored. Only an explicit target name
  that rebuilds the source excludes it (`Artifacts.SelfTargetExcluded`).
- **Errors for malformed references.** Where the Go code indexes a split reference that may
  be too short, the model states the precondition the code needs. The Python script does the
  same thing by raising an exception, and the model returns that exception as a value.

Foreign code becomes parameters of the members that call it:

- regular expressions;
- the Masterminds semver parser and its constraints;
- SHA-256 and base32;
- YAML decoding;
- the GitHub, Docker Hub and registry HTTP APIs;
- `oras`;
- the `helm` executable.

The same goes for the order in which Go iterates a map and Python iterates a set: the model
receives that order as a parameter and proves its results do not depend on it wherever the
code sorts afterwards.

## Model

| member | source | states |
|---|---|---|
| Ordering.StrCompare | tools/internal/config/config.go:148-150 | the byte-wise comparison is -1, 0 or 1, and 0 exactly for equal strings |
| Ordering.StrCompareAntisym | tools/internal/config/config.go:148-150 | swapping the compared strings negates the comparison |
| Ordering.StrCompareTrans | tools/internal/config/config.go:148-150 | the string comparison is transitive |
| Sorting.SortByStable | tools/internal/config/config.go:95-96 | the stable sort keeps the elements of each key in their input order |
| Sorting.StableSortUnique | tools/internal/config/config.go:95-96 | two sorted lists that keep each key's elements alike are equal, so the stable sort has only one possible result |
| Sorting.SortStringsSorted | tools/internal/config/image.go:56-58 | the sorted tags ascend |
| Sorting.SortStringsPermutation | tools/internal/config/image.go:56-58 | tag lists with the same members and multiplicities sort to the same list |
| Sorting.SortStringsIdempotent | tools/internal/config/image.go:56-58 | sorting sorted tags changes nothing |
| Repositories.CompareRepositories | tools/internal/config/config.go:148-150 | zero exactly when the base URLs are equal; swapping the arguments negates the result |
| Artifacts.DefaultTargetNameDefined | tools/internal/config/artifact.go:61-64 | a source reference gets a default target name exactly when it contains "/"; otherwise setting the defaults fails |
| Artifacts.DefaultTargetNameMirrored | tools/internal/config/artifact.go:72-76 | outside AppCo the default name is "mirrored-" + second-to-last segment + "-" + last segment, whatever registry and path precede them |
| Artifacts.DefaultTargetNameAppCo | tools/internal/config/artifact.go:65-71 | under dp.apps.rancher.io the default name is "appco-" + the last segment |
| Artifacts.ParseExcludedTagsSpec | tools/internal/config/artifact.go:84-94 | a DoNotMirror list is accepted exactly when it holds pairwise different strings, and the excluded set is then exactly those strings |
| Artifacts.DoNotMirrorCases | tools/internal/config/artifact.go:78-97 | nil excludes nothing; a boolean sets exclude-all; a list of distinct strings excludes exactly them; any other value is rejected |
| Artifacts.Defaults | tools/internal/config/artifact.go:60-104 | deriving the defaults succeeds exactly when the default name and the DoNotMirror value are both accepted |
| Artifacts.NameRoundTrip | tools/internal/config/artifact.go:106-119 | a name that is set reads back unchanged, and the empty name reads back as the default; a name equal to the default is never stored |
| Artifacts.Kept | tools/internal/config/artifact.go:165-168 | a tag is kept exactly when it is listed and not individually excluded |
| Artifacts.KeptNoneExcluded | tools/internal/config/artifact.go:165-168 | when no tag is excluded, every tag is kept, in order |
| Artifacts.SyncsForMember | tools/internal/config/artifact.go:160-180 | a directive is emitted for a repository exactly when not all tags are excluded and it copies a non-excluded tag from source:tag to baseUrl/targetName:tag, type "image" |
| Artifacts.ArtifactSyncsMember | tools/internal/config/artifact.go:133-155 | a directive is emitted exactly when some repository the artifact targets emits it |
| Artifacts.TargetsRepositoryFilter | tools/internal/config/artifact.go:135-141 | without TargetRepositories only default targets receive the artifact; with them, exactly the listed base URLs do, whatever their DefaultTarget flag |
| Artifacts.SelfTargetExcluded | tools/internal/config/artifact.go:142-147 | an artifact whose target reference names its own source, with or without "docker.io/", gets no directive for that repository |
| Artifacts.Combined | tools/internal/config/artifact.go:121-128 | one "source:tag" reference per tag, in tag order |
| Artifacts.CompareFields | tools/internal/config/artifact.go:196-201 | zero exactly when source and target name agree; negative exactly when the source is smaller, or equal with a smaller target name |
| Artifacts.Artifact.Literal | tools/internal/config/artifact.go:43-48 | the literal holds the given fields; the derived fields are at their zero values |
| Artifacts.Artifact.NewArtifact | tools/internal/config/artifact.go:42-54 | fails exactly when deriving the defaults fails, with the same error; otherwise a fresh artifact with its defaults derived and the given name stored as SetTargetArtifactName stores it |
| Artifacts.Artifact.SetDefaults | tools/internal/config/artifact.go:60-104 | passes exactly when Defaults succeeds, with Defaults' error otherwise; after a pass the derived fields agree with the source and DoNotMirror |
| Artifacts.Artifact.ExcludeEach | tools/internal/config/artifact.go:84-94 | passes exactly when the DoNotMirror list parses, and then holds exactly its strings as the excluded tags; otherwise fails with the parse error for the first non-string or repeated entry |
| Artifacts.Artifact.SetTargetArtifactName | tools/internal/config/artifact.go:113-119 | stores nothing for the default name; TargetArtifactName then reads back the value, or the default for "" |
| Artifacts.Artifact.Sort | tools/internal/config/artifact.go:56-58 | the tags become their ascending sort, a permutation of the old tags |
| Artifacts.Artifact.CombineSourceArtifactAndTags | tools/internal/config/artifact.go:121-128 | the loop yields Combined: one "source:tag" per tag |
| Artifacts.Artifact.ToRegsyncArtifactsForSingleRepository | tools/internal/config/artifact.go:160-180 | the loop yields the directives SyncsForMember characterises |
| Artifacts.Artifact.ToRegsyncArtifacts | tools/internal/config/artifact.go:133-155 | the loop yields the directives ArtifactSyncsMember characterises, repository by repository |
| Artifacts.Artifact.DeepCopy | tools/internal/config/artifact.go:182-194 | a fresh artifact with every field equal to the original's |
| Artifacts.CompareArtifacts | tools/internal/config/artifact.go:196-201 | agrees with CompareFields on the artifacts' fields |
| Images.ImageDefaults | tools/internal/config/image.go:60-104 | succeeds exactly when the artifact rules do, with the same result; a reference without "/" fails with the "source image split into n parts" message |
| Images.DeepCopyAsWritten | tools/internal/config/image.go:182-193 | the copy equals the original except that TargetRepositories is empty; it is a faithful copy exactly when the original has none |
| Images.DeepCopyDropsTargetRepositories | tools/internal/config/image.go:182-193 | an image restricted to "docker.io/rancher" is copied into one that every default target receives |
| Images.DeepCopyImage | tools/internal/config/image.go:182-193 | a fresh image whose fields are DeepCopyAsWritten of the original's |
| Accumulator.Missing | tools/internal/config/accumulator.go:61-65 | a tag is in the difference exactly when it is listed and not stored |
| Accumulator.AppendNew | tools/internal/config/accumulator.go:33-37 | the stored tags stay a prefix, and the result holds exactly the stored and the incoming tags |
| Accumulator.AppendNewNoDup | tools/internal/config/accumulator.go:33-37 | appending keeps a duplicate-free tag list duplicate-free |
| Accumulator.AppendNewSubsumed | tools/internal/config/accumulator.go:33-37 | adding only known tags changes nothing |
| Accumulator.AppendNewIsMissing | tools/internal/config/accumulator.go:33-37 | for duplicate-free incoming tags, appending adds exactly the tag difference |
| Accumulator.Merge | tools/internal/config/accumulator.go:29-39 | one added artifact adds its key, leaves every other key alone, and leaves the key holding the old and the new tags |
| Accumulator.AddAllGrows | tools/internal/config/accumulator.go:23-41 | adding artifacts adds exactly their keys and loses no tag, old or new |
| Accumulator.MergeIdempotent | tools/internal/config/accumulator.go:23-41 | adding the same artifact twice is the same as adding it once |
| Accumulator.DifferenceThenAdd | tools/internal/config/accumulator.go:47-70 | after adding an artifact's tag difference, its difference is empty |
| Accumulator.KeptAllExcluded | tools/internal/config/artifact.go:161-168 | when every tag is excluded, none is kept |
| Accumulator.MissingOneSided | tools/internal/config/accumulator.go:61-65 | stored tags the artifact does not list do not affect its difference |
| Accumulator.KeptAgree | tools/internal/config/artifact.go:165-168 | two exclusion sets that agree on the listed tags keep the same tags |
| Accumulator.Entries | tools/internal/config/accumulator.go:24-28 | one (index, tags) entry per artifact, in order |
| Accumulator.AppendMissingTags | tools/internal/config/accumulator.go:33-37 | the stored artifact's tags become AppendNew of its old tags and the incoming ones |
| Accumulator.AppendTagsNotIn | tools/internal/config/accumulator.go:61-65 | the returned artifact's tags grow by exactly the difference of the incoming and the stored tags |
| Accumulator.ArtifactAccumulator.constructor | tools/internal/config/accumulator.go:17-21 | an empty accumulator |
| Accumulator.ArtifactAccumulator.AddArtifact | tools/internal/config/accumulator.go:24-39 | the contents become Merge of the old contents; an unknown key stores the very artifact passed, a known key keeps its object |
| Accumulator.ArtifactAccumulator.AddArtifacts | tools/internal/config/accumulator.go:23-41 | the contents become every artifact added in order; old keys keep their objects, a new key holds the first passed artifact with it; every artifact passed is then contained, and one whose tags changed is the one stored for its identity |
| Accumulator.ArtifactAccumulator.TagDifference | tools/internal/config/accumulator.go:47-70 | an unknown artifact comes back itself; a known one gives a construction error, nil when no tag is missing, or a new artifact with exactly the missing tags and the same identity |
| Accumulator.ArtifactAccumulator.Artifacts | tools/internal/config/accumulator.go:72-78 | each stored artifact exactly once, in some order |
| Configuration.Keyed | tools/internal/config/config.go:95 | each artifact paired with its sort key, in order |
| Configuration.SortArtifactsPermutation | tools/internal/config/config.go:95 | sorting the artifacts neither loses nor duplicates one |
| Configuration.SortArtifactsSorted | tools/internal/config/config.go:95 | the sorted artifacts ascend by source reference, then target name |
| Configuration.ConfigSyncsMember | tools/internal/config/config.go:126-132 | a directive is in the configuration exactly when some artifact emits it |
| Configuration.CredSet | tools/internal/config/config.go:108-121 | the logins are exactly those some repository contributes |
| Configuration.MapKeys | tools/internal/config/config.go:122 | the keys of the login set, each exactly once |
| Configuration.SortEachArtifact | tools/internal/config/config.go:92-94 | every artifact's tags become their ascending sort |
| Sorting.TagsSortedStep | tools/internal/config/config.go:92-94 | sorting the tags of the next listed element extends the sorted prefix by one, also when that element is listed twice |
| Configuration.CollectCreds | tools/internal/config/config.go:108-121 | the loop builds CredSet of the repositories |
| Configuration.RegsyncCreds | tools/internal/config/config.go:108-124 | the logins, each once, exactly those of the repositories, ascending by registry |
| Configuration.RegsyncSyncs | tools/internal/config/config.go:126-132 | the directives of every artifact, artifact by artifact |
| Configuration.Config.constructor | tools/internal/config/config.go:16-19 | a configuration holding the given artifacts and repositories |
| Configuration.Config.SetArtifactDefaults | tools/internal/config/config.go:67-71 | passes exactly when every artifact's defaults can be derived; a failure names the first artifact that fails, quoted, with its error |
| Configuration.Config.Sort | tools/internal/config/config.go:91-97 | every artifact's tags are sorted, the artifacts are stably sorted by CompareArtifacts and the repositories by base URL |
| Configuration.Config.SortArtifactTags | tools/internal/config/config.go:92-94 | every artifact's tags become their ascending sort, and the order of the artifacts by identity stays what it was |
| Configuration.Config.SortArtifactOrder | tools/internal/config/config.go:95-96 | the artifacts are stably sorted by identity and the repositories by base URL |
| Configuration.Config.ToRegsyncConfig | tools/internal/config/config.go:99-135 | user agent "rancher-artifact-mirror"; logins as RegsyncCreds states; directives as RegsyncSyncs states |
| Configuration.Config.DeepCopy | tools/internal/config/config.go:137-146 | the same repositories and a fresh copy of each artifact, in order |
| AutoupdateConfig.ReviewerFormat | tools/internal/autoupdate/config.go:125-133 | the check of one reviewer passes exactly when it is a user name or "org/team" with both sides non-empty |
| AutoupdateConfig.OneSlash | tools/internal/autoupdate/config.go:130-132 | with a single "/", a reviewer is well formed exactly when both sides of it are non-empty |
| AutoupdateConfig.ReviewersCheckSpec | tools/internal/autoupdate/config.go:125-133 | the reviewers loop passes exactly when every reviewer is well formed, and otherwise reports the first bad reviewer's error |
| AutoupdateConfig.ValidateSpec | tools/internal/autoupdate/config.go:86-136 | an entry is valid exactly when it has a name, exactly one strategy that is itself valid, and at least one reviewer, all well formed; each failing check gives its own message, in the code's order |
| AutoupdateConfig.ValidateEntriesSpec | tools/internal/autoupdate/config.go:60-64 | the entries pass exactly when every entry is valid |
| AutoupdateConfig.SelectedPrefixErr | tools/internal/autoupdate/config.go:166-174 | once the loop fails on some fetched artifact, the later ones do not change the error |
| AutoupdateConfig.SelectedMember | tools/internal/autoupdate/config.go:166-174 | after a successful loop every fetched artifact's difference succeeded, each non-empty difference is selected, and every selected entry is some fetched artifact's difference |
| AutoupdateConfig.SelectedCovers | tools/internal/autoupdate/config.go:229-240 | adding the selected entries to the configuration accounts for every fetched artifact: its identity is stored and holds each of its tags |
| AutoupdateConfig.SelectedIdempotent | tools/internal/autoupdate/config.go:156-174 | once the selected updates are added, running the selection again over the same fetched artifacts finds nothing |
| AutoupdateConfig.NothingMissing | tools/internal/config/accumulator.go:47-70 | when every fetched artifact's tags are already stored, nothing is selected |
| AutoupdateConfig.DifferenceOf | tools/internal/config/accumulator.go:47-70 | TagDifference on the live accumulator agrees with Difference of the artifact's fields against the stored tags: same error, nil exactly for an empty difference, otherwise the difference's identity and tags |
| AutoupdateConfig.SelectUpdates | tools/internal/autoupdate/config.go:165-174 | fails exactly when the selection fails, with its error ("failed to get tag difference for artifact ..."); otherwise returns exactly the selected entries, in fetch order |
| AutoupdateConfig.BranchHash | tools/internal/autoupdate/config.go:313-316 | 8 characters, each a lower-case base32 symbol |
| AutoupdateConfig.LowerSymbols | tools/internal/autoupdate/config.go:315 | lower-casing keeps the length, and turns base32 symbols into lower-case base32 symbols |
| AutoupdateConfig.BranchHashPrefix | tools/internal/autoupdate/config.go:313-316 | the hash depends only on the first 5 bytes of the digest |
| AutoupdateConfig.WriteReferences | tools/internal/autoupdate/config.go:306-311 | the hasher input grows by the artifact's full references, in order |
| AutoupdateConfig.HashInput | tools/internal/autoupdate/config.go:304-312 | the hasher receives every artifact's full references, artifact by artifact |
| AutoupdateConfig.HashSorted | tools/internal/autoupdate/config.go:304-316 | the result is BranchHash of the concatenated full references |
| AutoupdateConfig.SortTags | tools/internal/autoupdate/config.go:299-301 | every artifact holds its original tags, sorted |
| AutoupdateConfig.SortSlice | tools/internal/autoupdate/config.go:302 | the slice becomes the stable sort of its artifacts by CompareArtifacts |
| AutoupdateConfig.SortForHash | tools/internal/autoupdate/config.go:299-302 | tags sorted within each artifact, then the artifacts sorted |
| AutoupdateConfig.BranchName | tools/internal/autoupdate/config.go:184 | the branch is "autoupdate/", the entry name, "/" and the hash, in that order and nothing else |
| AutoupdateConfig.BranchNameInjective | tools/internal/autoupdate/config.go:184 | branch names with hashes of equal length are equal only for the same entry name and the same hash |
| AutoupdateConfig.PlanBranch | tools/internal/autoupdate/config.go:175-184 | no updates means returning without hashing or naming a branch; otherwise the updates' tags and the updates are sorted in place and the branch is named by the entry and the hash of their full references |
| AutoupdateConfig.SortEntries | tools/internal/autoupdate/config.go:69-72 | the entries are sorted by name, as a permutation, and entries with equal names keep their order |
| AutoupdateConfig.WriteOrderIdempotent | tools/internal/autoupdate/config.go:69-72 | sorting written entries again changes nothing |
| AutoupdateConfig.HashArtifactSet | tools/internal/autoupdate/config.go:298-317 | sorts tags and artifacts in place, then returns BranchHash of the sorted artifacts' full references |
| AutoupdateConfig.SortArtifactsOrderFree | tools/internal/autoupdate/config.go:295-297 | reordering artifacts with distinct identities does not change the sorted list, so the hash ignores artifact order |
| AutoupdateConfig.SortedTagsOrderFree | tools/internal/autoupdate/config.go:295-297 | tag lists with the same elements sort alike, so the hash ignores tag order |
| AutoupdateConfig.TagCountReferences | tools/internal/autoupdate/config.go:263-273 | the tag count in the pull-request title equals the number of full references listed in its body |
| AutoupdateConfig.CountTags | tools/internal/autoupdate/config.go:263-266 | the loop counts one per full reference of the updates |
| Base32.EncodeGroup | tools/internal/autoupdate/config.go:314 | a group of 1 to 5 bytes becomes 8 characters: the data characters are alphabet symbols and the rest is "=" padding (RFC 4648, section 6) |
| Base32.GroupChar | tools/internal/autoupdate/config.go:314 | a character of a group is an alphabet symbol exactly when it is one of the group's data characters, and "=" otherwise |
| Base32.Encode | tools/internal/autoupdate/config.go:314 | the encoding has 8 characters per started group of 5 bytes |
| Base32.EncodePrefix | tools/internal/autoupdate/config.go:314-316 | the first 8 characters of the encoding of at least 5 bytes encode exactly those 5 bytes and are all alphabet symbols |
| Strategies.NewImage | tools/internal/config/image.go:42-54 | a found image becomes an entry exactly when its source contains "/"; the entry keeps the source and tags, gets the default target name, and is named after the given target unless that is empty; otherwise the error names the number of segments |
| Strategies.FanOut | tools/internal/autoupdate/githubrelease.go:50-58 | every configured reference gets one image with the same tags, in order; the loop fails exactly when some source lacks "/", and then reports the first such reference's error, wrapped |
| Strategies.TargetForSpec | tools/internal/autoupdate/helmlatest.go:100-106 | the target name of a found image is that of the first reference whose source equals it |
| Strategies.TargetForAbsent | tools/internal/autoupdate/githubtaggedimagesfile.go:91-96 | an image that no reference names gets the empty target name |
| Strategies.FindTargetName | tools/internal/autoupdate/helmlatest.go:100-109 | the search loop over the references returns the target name of the first matching reference, or "" |
| Strategies.MapOrder | tools/internal/autoupdate/helmlatest.go:98 | a map iteration visits every key of the image map exactly once |
| Strategies.ImagesFromMap | tools/internal/autoupdate/helmlatest.go:98-117 | one image per map key, in iteration order, carrying that key's tags and its reference's target name; the conversion fails exactly when some key cannot become an image, and then with the first such key's error |
| Strategies.AddTag | tools/internal/autoupdate/helmlatest.go:141-146 | adding a tag keeps every other repository, keeps the repository's earlier tags in order and adds exactly the new tag to its members |
| Strategies.AddTagNoDup | tools/internal/autoupdate/githubtaggedimagesfile.go:137-142 | when no tag list holds a duplicate, none does after an addition; a tag already present is not appended again |
| Strategies.TagMap.constructor | tools/internal/autoupdate/helmlatest.go:54 | the repository-to-tags map starts empty |
| Strategies.TagMap.Add | tools/internal/autoupdate/githubtaggedimagesfile.go:137-142 | the map update in place is the addition of one tag to one repository |
| Registry.SplitThree | tools/internal/autoupdate/registry.go:193 | three slash-free segments joined by "/" split back into exactly those segments |
| Registry.RegistryInformationDockerHub | tools/internal/autoupdate/registry.go:195-198 | "org/name" with no "." in org is a Docker Hub image in namespace org |
| Registry.RegistryInformationNoNamespace | tools/internal/autoupdate/registry.go:200-203 | "host/name" with a "." in host is an image of that registry with an empty namespace |
| Registry.RegistryInformationThree | tools/internal/autoupdate/registry.go:210-211 | "host/namespace/name" names registry, namespace and repository in that order |
| Registry.RegistryInformationLongPath | tools/internal/autoupdate/registry.go:205-208 | under a registry host, every segment after the namespace is kept in the repository, joined by "/" |
| Registry.RegistryInformationDropsTail | tools/internal/autoupdate/registry.go:206-211 | with four or more segments and no "." in the first, the segments after the third are dropped |
| Registry.LinkHeaderRoundTrip | tools/internal/autoupdate/registry.go:292-299 | an empty Link header has no next page, and the URL of a `<url>; rel="next"` header is read back exactly (RFC 8288, section 3) |
| Registry.Backoff | tools/internal/autoupdate/registry.go:283 | the wait between attempts is at least one second |
| Registry.RetryAttempts | tools/internal/autoupdate/registry.go:235-288 | a request makes at least one attempt and at most the ten allowed, with one wait between each two |
| Registry.RetrySleeps | tools/internal/autoupdate/registry.go:235-288 | the waits between attempts are the doubling back-off series, starting after the first attempt |
| Registry.RetrySucceedsLast | tools/internal/autoupdate/registry.go:235-288 | a request that succeeds returns the 2xx reply of its last attempt |
| Registry.RetryWaits | tools/internal/autoupdate/registry.go:235-288 | the wait after the n-th attempt of a request is 2^n seconds |
| Registry.RetryStopsAtFinal | tools/internal/autoupdate/registry.go:250-269 | a transport error, a 2xx answer and a non-retryable status each end the loop after one attempt, with the matching error or response |
| Registry.RetryExhausted | tools/internal/autoupdate/registry.go:279-287 | when every attempt answers 500, 502, 503 or 504, all attempts are used and the error reports 10 retries |
| Registry.DoRequestWithRetries | tools/internal/autoupdate/registry.go:235-288 | the retry loop's response, attempt count and sleeps are those of the retry specification |
| Registry.BuildRequestAsWritten | tools/internal/autoupdate/registry.go:143-189 | as written, the built request's query is always the encoded page parameters, whatever the next-page URL held; an unknown registry or a failed SUSE token is the error |
| Registry.ParseUrlAt | tools/internal/autoupdate/registry.go:180 | a URL splits at its first "?" into its base and its query |
| Registry.FollowUp | tools/internal/autoupdate/registry.go:312-360 | Docker Hub and Quay ask for the next page number while more results are announced; GHCR follows the Link header's URL on the same page; the other registries never follow up |
| Registry.NextPageQueryLost | tools/internal/autoupdate/registry.go:170-187 | as written, the GHCR follow-up request built from a Link header equals the first-page request, so paging never advances |
| Registry.BuildRequest | tools/internal/autoupdate/registry.go:143-189 | an unknown registry or a failed SUSE token is the error |
| Registry.NextPageKept | tools/internal/autoupdate/registry.go:170-171 | with the query kept, a GHCR request for a next-page URL asks for exactly that URL |
| Registry.FollowUpAdvances | tools/internal/autoupdate/registry.go:351-356 | with the query kept, the follow-up of a GHCR Link header requests the linked path and query with the bearer token |
| Registry.GhcrRequest | tools/internal/autoupdate/registry.go:168-174 | with a next-page URL, a ghcr.io request asks for that URL's path and query, with the base64 GitHub token as bearer |
| Registry.GhcrFollowUp | tools/internal/autoupdate/registry.go:346-356 | a Link header `<path?query>; rel="next"` is followed on https://ghcr.io with the same page number |
| Registry.BuildRequestRules | tools/internal/autoupdate/registry.go:146-187 | a request fails exactly for an unknown registry or a failed SUSE token; Docker Hub and Quay carry the page query; registry.k8s.io leaves out an empty namespace; GHCR carries the bearer token |
| Registry.Validate | tools/internal/autoupdate/registry.go:109-119 | passes exactly when there is an image and any version filter compiles, with the source's two error messages |
| Registry.Filter | tools/internal/autoupdate/registry.go:66-75 | the kept tags are exactly the tags that match the version filter |
| Registry.FilterTags | tools/internal/autoupdate/registry.go:69-74 | the filtering loop keeps the matching tags in order |
| Registry.ParseAll | tools/internal/autoupdate/registry.go:85-92 | parsing succeeds exactly when every tag parses, giving one version per tag; otherwise it reports the first tag that does not |
| Registry.Newest | tools/internal/autoupdate/registry.go:93-94 | for a total order on versions, the chosen version is at least every other; the pass computes NewestFrom |
| Registry.ParseVersions | tools/internal/autoupdate/registry.go:85-92 | the parsing loop computes the parse of all tags |
| Registry.ParseAllFirstError | tools/internal/autoupdate/registry.go:87-90 | the error is that of the first tag that does not parse |
| Registry.ParseAllValues | tools/internal/autoupdate/registry.go:85-92 | when every tag parses, the result is the list of their versions |
| Registry.SelectTags | tools/internal/autoupdate/registry.go:61-95 | the selection loop computes SelectedTags: no tags and no match are errors; without Latest the tags are the (filtered) tags; with Latest the single tag is the newest parsed version, or the parse error |
| Registry.ImagesFromTags | tools/internal/autoupdate/registry.go:61-106 | once the tags are listed: an error of the tag selection is the error; otherwise one image per configured reference, each with its reference's source and target name and all with the selected tags, failing exactly when some reference has no "/", with that reference's error; with Latest each has a single tag |
| Registry.GetImageTags | tools/internal/autoupdate/registry.go:121-141 | the page walk returns exactly the listing from page 1: all pages' tags in order, or the first failed request's error |
| Registry.NumberedPagesConcat | tools/internal/autoupdate/registry.go:303-337 | for Docker Hub and quay.io, pages announcing more results are followed by the next page number, and the listing is the concatenation of the pages' tags in page order |
| Registry.SinglePage | tools/internal/autoupdate/registry.go:339-344 | registry.k8s.io, registry.suse.com and gcr.io answer with the tags of a single request, or its error |
| Registry.GetUpdateImages | tools/internal/autoupdate/registry.go:54-107 | a failed listing is "failed to get image tags: " with its error; otherwise the tag selection's error, or one image per configured reference with its source and exactly the selected tags, failing exactly when some reference has no "/" |
| GithubReleases.TagToVersion | tools/internal/autoupdate/githubrelease.go:107-130 | without expression or constraint a tag is its own version; a tag the expression does not match gives ""; the version is the first group (or whole match) and, under a constraint, parses and satisfies it; the only error is a version that does not parse |
| GithubReleases.PageVersions | tools/internal/autoupdate/githubrelease.go:70-83 | a page succeeds exactly when every published release's tag converts; its versions are exactly the non-empty versions of its published releases; otherwise the error is a published release's conversion error |
| GithubReleases.AllVersions | tools/internal/autoupdate/githubrelease.go:61-92 | every version collected over all pages is non-empty |
| GithubReleases.AllVersionsUnfold | tools/internal/autoupdate/githubrelease.go:64-89 | a failed listing or a failed page ends the walk with its error; the last page's versions end it; otherwise the next page's versions follow |
| GithubReleases.ReleaseTags | tools/internal/autoupdate/githubrelease.go:35-48 | with LatestOnly exactly one tag is offered, and a failed latest-release request is reported with both wrappers; otherwise no offered tag is empty |
| GithubReleases.UnmatchedLatestTag | tools/internal/autoupdate/githubrelease.go:79-81 | a tag the version expression does not match is skipped among all releases, but the latest release's unmatched tag is offered as the empty tag |
| GithubReleases.ValidateOutcome | tools/internal/autoupdate/githubrelease.go:132-160 | passes exactly when owner, repository and a non-empty Images are set, LatestOnly has no constraint, and the constraint and expression compile; each missing field gets its own message, in the source's order |
| GithubReleases.GithubRelease.constructor | tools/internal/autoupdate/githubrelease.go:132 | a strategy starts with its configured fields and nothing compiled |
| GithubReleases.GithubRelease.Validate | tools/internal/autoupdate/githubrelease.go:132-160 | validation's verdict is the validation outcome, it changes no configured field, and it stores the compiled constraint and expression exactly when they are set and the earlier checks pass |
| GithubReleases.GithubRelease.VersionsOfPage | tools/internal/autoupdate/githubrelease.go:70-83 | the loop over one page computes that page's versions |
| GithubReleases.GithubRelease.VersionsFromAllReleases | tools/internal/autoupdate/githubrelease.go:61-92 | the paging loop computes the versions of all pages |
| GithubReleases.GithubRelease.Tags | tools/internal/autoupdate/githubrelease.go:35-48 | the tags are the offered release tags |
| GithubReleases.GithubRelease.GetUpdateImages | tools/internal/autoupdate/githubrelease.go:32-59 | a failed tag lookup is the error; otherwise one image per configured reference, with the offered tags, or the first reference that cannot become an image |
| GithubReleases.PageVersionsAbort | tools/internal/autoupdate/githubrelease.go:75-78 | the first published release whose tag fails to convert ends the page with that error |
| GithubLatestReleases.Validate | tools/internal/autoupdate/githublatestrelease.go:43-56 | passes exactly when owner, repository and a non-empty Images are set, with the source's message for each missing field |
| GithubLatestReleases.Refs | tools/internal/autoupdate/githublatestrelease.go:32-33 | each configured image is a reference with no target name |
| GithubLatestReleases.GetUpdateImages | tools/internal/autoupdate/githublatestrelease.go:23-41 | a failed latest-release request is the error; otherwise one image per configured source, tagged with the latest release and named by its default target, or the first source without "/" |
| HelmLatest.ToHelmTemplateArgs | tools/internal/autoupdate/helmlatest.go:23-29 | each environment value becomes "--set" followed by the value, in order |
| HelmLatest.TemplateArgs | tools/internal/autoupdate/helmlatest.go:69-73 | the helm arguments are "template", the release name chart-environment, the repository chart, then the environment's --set pairs |
| HelmLatest.ParseImageRef | tools/internal/autoupdate/helmlatest.go:165-175 | an image reference parses exactly when its part before "@" splits on ":" into two, with the source's error otherwise |
| HelmLatest.ParseImageRefRoundTrip | tools/internal/autoupdate/helmlatest.go:166-174 | "repository:tag", with or without a digest and with or without "docker.io/", parses back into repository and tag |
| HelmLatest.ParseImageRefPortRejected | tools/internal/autoupdate/helmlatest.go:167-169 | a reference whose registry names a port does not parse |
| HelmLatest.AddImageRefsAppend | tools/internal/autoupdate/helmlatest.go:137-146 | recording two runs of references is recording the first and then the second |
| HelmLatest.WalkRecords | tools/internal/autoupdate/helmlatest.go:130-163 | the recursive walk of a YAML document records exactly its "image" strings, in walk order |
| HelmLatest.WalkEntriesRecords | tools/internal/autoupdate/helmlatest.go:133-152 | the walk over a mapping's entries records its entries' image strings in order |
| HelmLatest.WalkItemsRecords | tools/internal/autoupdate/helmlatest.go:155-159 | the walk over a list's items records its items' image strings in order |
| HelmLatest.AddImageRefsSpec | tools/internal/autoupdate/helmlatest.go:137-146 | recording keeps earlier repositories and tags, holds no duplicate tag, and every recorded reference parses and appears under its repository |
| HelmLatest.ExtractImagesFromYaml | tools/internal/autoupdate/helmlatest.go:130-163 | the in-place walk leaves the map that the walk specification computes, or stops with its error |
| HelmLatest.HelmMapNoDup | tools/internal/autoupdate/helmlatest.go:67-95 | after all charts and environments, no repository lists a tag twice |
| HelmLatest.WalkDocumentsNoDup | tools/internal/autoupdate/helmlatest.go:82-93 | after all documents of one template output, no repository lists a tag twice |
| HelmLatest.ExtractDocuments | tools/internal/autoupdate/helmlatest.go:82-93 | the document loop leaves the map that the walk over every document computes, or its error |
| HelmLatest.Allowed | tools/internal/autoupdate/helmlatest.go:119-125 | the kept images are exactly those whose source is not denied |
| HelmLatest.FilterDenied | tools/internal/autoupdate/helmlatest.go:120-125 | the denylist loop keeps the allowed images |
| HelmLatest.AllowedDistinct | tools/internal/autoupdate/helmlatest.go:119-125 | the denylist filter keeps images with distinct sources distinct |
| HelmLatest.ConvertFound | tools/internal/autoupdate/helmlatest.go:97-127 | the conversion succeeds exactly when every found repository can become an image; then every undenied repository becomes exactly one image with its tags, named by its reference, and no denied one does; otherwise the error is "failed to create image: " for some repository that cannot |
| HelmLatest.GetUpdateImages | tools/internal/autoupdate/helmlatest.go:49-128 | a walk error is the error; otherwise the result is Ok exactly when every found repository can become an image, and then every found, undenied repository becomes exactly one image with its tags, one per repository, named by its reference; a repository without a reference is an error even when denied |
| HelmLatest.Validate | tools/internal/autoupdate/helmlatest.go:177-193 | passes exactly when a repository is set and every chart (at least one) has an environment, with the source's messages |
| TaggedImagesFile.ScanLines | tools/internal/autoupdate/githubtaggedimagesfile.go:118-119 | the scanned lines contain no line break |
| TaggedImagesFile.ScanLinesRoundTrip | tools/internal/autoupdate/githubtaggedimagesfile.go:118-119 | lines joined with a final newline scan back into the same lines |
| TaggedImagesFile.ScanLinesEmpty | tools/internal/autoupdate/githubtaggedimagesfile.go:118-119 | empty content has no line |
| TaggedImagesFile.ParseLine | tools/internal/autoupdate/githubtaggedimagesfile.go:120-134 | blank lines are skipped; a line fails exactly when its trimmed text does not split on ":" into two; a kept line yields a repository (without "docker.io/") and tag that make up the line |
| TaggedImagesFile.ParseLineOf | tools/internal/autoupdate/githubtaggedimagesfile.go:126-134 | a "repository:tag" line yields the repository without "docker.io/" and the tag, unless the repository is skipped |
| TaggedImagesFile.ParseLineRoundTrip | tools/internal/autoupdate/githubtaggedimagesfile.go:120-131 | "repository:tag" and "docker.io/repository:tag" both parse back into repository and tag |
| TaggedImagesFile.RancherImagesNotSkipped | tools/internal/autoupdate/githubtaggedimagesfile.go:132-134 | as written, "rancher/longhorn-manager:v1.4.0" is kept while "rancher:v1" is skipped |
| TaggedImagesFile.RancherImagesSkipped | tools/internal/autoupdate/githubtaggedimagesfile.go:132-134 | corrected, every rancher/ image is skipped and no kept repository starts with "rancher/" |
| TaggedImagesFile.ParseLinesRecords | tools/internal/autoupdate/githubtaggedimagesfile.go:117-148 | a parsed file keeps earlier repositories and tags, and records every kept line's tag under its repository |
| TaggedImagesFile.ParseLinesNoDup | tools/internal/autoupdate/githubtaggedimagesfile.go:137-144 | parsing a file lists no tag twice under a repository |
| TaggedImagesFile.ParseImageLine | tools/internal/autoupdate/githubtaggedimagesfile.go:120-145 | one round of the loop returns the line's error, leaves the map alone for a blank or skipped line, and otherwise records the line's repository and tag |
| TaggedImagesFile.ParseImageLines | tools/internal/autoupdate/githubtaggedimagesfile.go:119-146 | the loop over the scanned lines leaves the map that reading them computes, or stops with the first line's error |
| TaggedImagesFile.ParseImagesFromContent | tools/internal/autoupdate/githubtaggedimagesfile.go:117-148 | the in-place parse leaves the map that parsing the file's lines computes, or stops with its error |
| TaggedImagesFile.AllReleases | tools/internal/autoupdate/githubtaggedimagesfile.go:37-52 | the last page's releases end the listing |
| TaggedImagesFile.ListAllReleases | tools/internal/autoupdate/githubtaggedimagesfile.go:37-52 | the paging loop collects the releases of every page, or the listing error |
| TaggedImagesFile.CollectImagesIgnoresUnselected | tools/internal/autoupdate/githubtaggedimagesfile.go:55-68 | drafts, prereleases, untagged releases, unparsable versions and versions outside the constraint are never read |
| TaggedImagesFile.CollectImagesNoDup | tools/internal/autoupdate/githubtaggedimagesfile.go:55-86 | after reading every selected release's file, no repository lists a tag twice |
| TaggedImagesFile.ReadReleaseFiles | tools/internal/autoupdate/githubtaggedimagesfile.go:55-86 | the release loop leaves the map of all selected releases' files, or the first fetch, decode or parse error |
| TaggedImagesFile.GetUpdateImages | tools/internal/autoupdate/githubtaggedimagesfile.go:29-109 | any error of the listing, of a release's file or of a line is the error; otherwise the result is Ok exactly when every found repository can become an image, and then every found repository becomes exactly one image with its tags, one per repository, named by its reference |
| TaggedImagesFile.Validate | tools/internal/autoupdate/githubtaggedimagesfile.go:150-167 | passes exactly when owner, repository and file path are set and any constraint compiles, with the source's messages |
| Accumulator.Views | tools/main.go:231-235 | the read-back of the artifacts has one value per artifact, each that artifact's fields |
| Validators.RepeatedCount | tools/main.go:230-244 | every artifact either enters the seen set or is reported, so the reports and the distinct identities add up to the number of artifacts |
| Validators.RepeatedNone | tools/main.go:236-243 | nothing is reported exactly when no two artifacts share a source and target name |
| Validators.DuplicateErrors | tools/main.go:238-240 | each repeated identity gets the "found multiple artifacts" error naming its source and target name |
| Validators.ValidateSourceArtifactAndTargetArtifactName | tools/main.go:229-245 | the loop reports one error for each artifact whose identity an earlier artifact already had, in order |
| Accumulator.DifferenceSpec | tools/internal/config/accumulator.go:47-70 | an unknown identity is all new; a known one fails exactly when its defaults cannot be derived, and otherwise yields exactly the tags the accumulator lacks, or nothing when it lacks none |
| Validators.Diff | tools/main.go:276 | one tag-difference call returns the difference against the accumulator's contents |
| Validators.RemovedTags | tools/main.go:285-288 | each missed tag gets its own "removed" error naming source, tag and target name |
| Validators.RemovedTagReported | tools/main.go:272-290 | every tag of an old artifact that the new configuration lacks is reported as removed |
| Validators.RemovedErrorsSound | tools/main.go:272-290 | every reported error is explained by some old artifact: a tag it lost or a diff that failed |
| Validators.NothingRemoved | tools/main.go:272-290 | when the new configuration keeps every old artifact with all its tags, nothing is reported |
| Accumulator.FirstOf | tools/internal/config/accumulator.go:27-39 | the first entry with a given entry's identity: no earlier entry has that identity |
| Accumulator.ArtifactAccumulator.AddEntry | tools/internal/config/accumulator.go:27-39 | one artifact is added: the contents merge its tags, its identity is stored, and only the stored artifact for it changes |
| Validators.Accumulate | tools/main.go:273-274 | a fresh accumulator holds the merge of all the artifacts' entries; the first artifact with each identity becomes the stored one and holds all that identity's tags, every other artifact keeps its own |
| Validators.AppendRemoved | tools/main.go:285-288 | the inner loop appends the removed-tag errors of one diff |
| Validators.ReportOne | tools/main.go:276-288 | one old artifact adds exactly its removal errors |
| Validators.ReportRemoved | tools/main.go:275-289 | the loop over the old artifacts reports exactly the removal errors of all of them against the accumulator |
| Validators.CheckNoTagsRemoved | tools/main.go:272-290 | the reported errors are the removal errors of the old artifacts against the merge of the new ones; the first new artifact with each identity is left holding all that identity's tags, every other one keeps its own |
| Validators.ValidateNoTagsRemoved | tools/main.go:207-214 | a merge base that cannot be loaded is the one error and changes nothing; otherwise the removal errors, and the new artifacts' fields become their accumulated fields |
| Validators.AccumulatedViews | tools/internal/config/accumulator.go:27-39 | accumulation changes only tags, and only of the first artifact with each identity |
| Validators.FirstHoldsAll | tools/internal/config/accumulator.go:27-39 | after accumulation, the first artifact with an identity holds every tag any artifact with that identity had |
| Validators.AccumulatedTagsViews | tools/main.go:273-274 | on distinct artifacts, the tags the accumulation leaves are the accumulated fields |
| Validators.EntriesViews | tools/internal/config/accumulator.go:23-41 | an artifact list's entries are those of its fields |
| Validators.PullableAndDockerHub | tools/main.go:216-217 | the last two checks report their errors against the new artifacts as they find them, and leave them so |
| Validators.Validate | tools/main.go:204-227 | the verdict over the four checks' errors in order; the removal check accumulates the new artifacts in place, so the pull and Docker Hub checks see the accumulated fields |
| Validators.PrepareRepository | tools/main.go:355-363 | a repository is accepted exactly when it contains "/"; it is then kept or prefixed with "docker.io/", otherwise "invalid format" |
| Validators.PrepareRepositoryOf | tools/main.go:357-363 | the prefix "docker.io/" is added exactly when the first segment has no "." |
| Validators.PrepareRepositoryIdempotent | tools/main.go:355-363 | preparing a prepared repository changes nothing |
| Validators.ParseRepository | tools/main.go:355-369 | a parsed repository is the prepared one and instantiated without error; a malformed one keeps the format error |
| Validators.NewTagsComplete | tools/main.go:303-314 | every tag of a new artifact that the merge base lacks is among the new tags found |
| Validators.PullsOf | tools/main.go:345-351 | one pull is attempted per new tag, in order |
| Validators.AttemptsSpec | tools/main.go:330-352 | every pull is of a new tag of a source outside the application collection from its prepared reference, and every such tag is pulled |
| Validators.PullErrorsAppend | tools/main.go:330-352 | the errors of two runs of attempts are those of the first followed by those of the second |
| Validators.PullTags | tools/main.go:345-351 | the tag loop appends one error per failed pull |
| Validators.PullArtifact | tools/main.go:331-351 | one artifact with new tags adds its parse error or its failed pulls |
| Validators.AttemptsStep | tools/main.go:330-352 | the errors of the remaining artifacts are those of the next one followed by the rest |
| Validators.PullNewTags | tools/main.go:330-352 | the pull loop reports exactly the errors of all attempts |
| Validators.DiffNew | tools/main.go:304-313 | one new artifact adds its diff failure or its new tags |
| Validators.FailuresStep | tools/main.go:303-314 | the diff failures of the remaining artifacts are those of the next one followed by the rest |
| Validators.NewTagsStep | tools/main.go:303-314 | the new tags of the remaining artifacts are those of the next one followed by the rest |
| Validators.CollectNewTags | tools/main.go:300-314 | the diff loop yields exactly the diff failures and the new tags of the new artifacts against the merge base |
| Validators.AccumulateMergeBase | tools/main.go:301-302 | the accumulator holds the merged tags of the merge-base artifacts, and the new artifacts, none of which is among those, keep their fields |
| Validators.DiffAndPull | tools/main.go:303-352 | against an accumulator it leaves as it is, the errors are the diff failures of the new artifacts followed by the failed pulls of every new tag |
| Validators.PullNewTagsAgainst | tools/main.go:300-352 | once the merge base is loaded, the errors are those of the new artifacts diffed against the accumulated merge base and pulled |
| Validators.ValidateNewTagsPullable | tools/main.go:292-353 | a merge base that cannot be loaded is the one error; otherwise the diff failures followed by the failed pulls of every new tag |
| Validators.DockerHubCandidatesSpec | tools/main.go:379-390 | the candidates are exactly the new artifacts unknown to the merge base that list no target repositories or list docker.io/rancher |
| Validators.MissingRepositoriesSpec | tools/main.go:402-408 | nothing is reported exactly when every candidate's target name exists on Docker Hub, and each report names a missing one |
| Validators.SelectCandidates | tools/main.go:379-390 | the selection loop yields exactly the candidates |
| Validators.ReportMissingRepositories | tools/main.go:402-408 | the report loop yields exactly the missing-repository errors |
| Validators.ValidateDockerHubRepoExists | tools/main.go:371-409 | a load failure is the one error; without candidates Docker Hub is not consulted; otherwise its failure, or each missing candidate, is an error |
| Validators.ValidationResult | tools/main.go:218-226 | validation passes exactly when no error was collected, and a failure starts with "validation failed" |
| LegacyConfig.MirroredNameDefined | tools/pkg/config/config.go:123-127 | a source reference has a default name exactly when it contains "/"; otherwise the error reports one part |
| LegacyConfig.MirroredNameOf | tools/pkg/config/config.go:128-130 | the default name is "mirrored-" + second-to-last segment + "-" + last segment, whatever precedes them |
| LegacyConfig.MirroredNameAgrees | tools/pkg/config/config.go:123-132 | the legacy default name agrees with the current configuration's default name outside the application collection and differs from it inside |
| LegacyConfig.Image.Literal | tools/pkg/config/config.go:110-113 | an image literal holds its source and tags and no target name yet |
| LegacyConfig.Image.SetDefaults | tools/pkg/config/config.go:123-132 | setting the defaults succeeds exactly when the source has a default name, stores it, and otherwise leaves the image unchanged with the error |
| LegacyConfig.Image.NewImage | tools/pkg/config/config.go:109-118 | a new image exists exactly when its source has a default name, and holds the source, tags and that default name |
| LegacyConfig.Image.SetTargetImageName | tools/pkg/config/config.go:134-147 | the specified name is cleared exactly when the value is the default or empty, and the target name is then the value or else the default |
| LegacyConfig.Image.Sort | tools/pkg/config/config.go:119-121 | sorting leaves the tags sorted and a permutation of the old tags |
| LegacyConfig.CompareImages | tools/pkg/config/config.go:98-103 | zero exactly for the same source and target name; negative exactly when the source, or for equal sources the target name, is smaller |
| LegacyConfig.KeyedImages | tools/pkg/config/config.go:94 | each image is paired with its sort key, in order |
| LegacyConfig.SortImagesPermutation | tools/pkg/config/config.go:94 | the stable sort of the images is a permutation of them |
| LegacyConfig.SortImagesSorted | tools/pkg/config/config.go:94 | the stable sort of the images is ordered by the image comparison |
| LegacyConfig.SortNextImage | tools/pkg/config/config.go:91-93 | one more image has its tags sorted |
| LegacyConfig.SortEachImage | tools/pkg/config/config.go:91-93 | every image's tags end up as the sort of its old tags |
| LegacyConfig.Config.constructor | tools/pkg/config/config.go:12-15 | a configuration holds the given images and repositories |
| LegacyConfig.Config.SetImageDefaults | tools/pkg/config/config.go:66-70 | the defaults loop passes exactly when every image has a default name, stores each, and otherwise reports the first image that fails |
| LegacyConfig.Config.Sort | tools/pkg/config/config.go:90-96 | every image's tags are sorted, the images are stably sorted by source then target name, and the repositories by base URL |
| LegacyConfig.Config.SortImageTags | tools/pkg/config/config.go:91-93 | every image's tags become their ascending sort, and the order of the images by identity stays what it was |
| LegacyConfig.Config.SortImageOrder | tools/pkg/config/config.go:94-95 | the images are stably sorted by source then target name, and the repositories by base URL |
| LegacyConfig.AppendMissingImageTags | tools/pkg/config/accumulator.go:31-35 | the stored image gains the incoming tags it lacks, in order and without duplicates |
| LegacyConfig.ImageAccumulator.constructor | tools/pkg/config/accumulator.go:16-20 | an accumulator starts empty |
| LegacyConfig.ImageAccumulator.AddImage | tools/pkg/config/accumulator.go:22-38 | adding an image merges its tags into its identity's entry, stores that very image under a new identity and leaves every other identity alone |
| LegacyConfig.ImageAccumulator.Images | tools/pkg/config/accumulator.go:40-46 | the listing holds every stored image once, one per identity |
| LegacyConfig.AddImageIdempotent | tools/pkg/config/accumulator.go:22-38 | adding the same tags twice is adding them once, and no tag is stored twice |
| RootMain.GetRegsyncEntries | main.go:78-103 | one directive per tag, in order, copying source:tag to base URL/target name:tag; fails only without a target name and without "/" in the source |
| RootMain.EntriesName | main.go:79-88 | without a target name the directives target "mirrored-" + org + "-" + name under the base URL |
| RootMain.ImageSyncsFails | main.go:56-63 | an image fails exactly when it has no target name to derive and some repository is a target, with the wrapped error |
| RootMain.AllSyncsFails | main.go:55-66 | generation fails exactly when some image fails, and then with the first failing image's error |
| RootMain.ImageSyncsMember | main.go:56-65 | an image's directives are exactly its directives for each target repository |
| RootMain.AllSyncsMember | main.go:55-66 | the directives are exactly those of every image |
| RootMain.ImageSyncsPrefix | main.go:56-65 | each repository extends an image's directives, skipping non-target repositories and stopping at an error |
| RootMain.ImageSyncsErrPersists | main.go:60-63 | once an image fails, later repositories change nothing |
| RootMain.AppendImageSyncs | main.go:56-65 | the repository loop appends an image's directives or returns its error |
| RootMain.AllSyncsPrefix | main.go:55-66 | each image extends the directives, stopping at the first error |
| RootMain.AllSyncsErrPersists | main.go:55-66 | once an image fails, later images change nothing |
| RootMain.GenerateRegsyncYaml | main.go:37-66 | one login per repository in order, then the directives of every image for every target repository, or the first image's error |
| LegacyList.Meaningful | tools/pkg/legacy/list.go:24-26 | the meaningful lines are exactly those neither empty nor starting with "#" |
| LegacyList.ParseLinesSpec | tools/pkg/legacy/list.go:21-39 | a list parses exactly when every meaningful line has three elements, and then yields one entry per meaningful line, in order |
| LegacyList.ParseLinesError | tools/pkg/legacy/list.go:27-30 | a failed parse names the first meaningful line without three elements |
| LegacyList.ParseLinesPrefix | tools/pkg/legacy/list.go:23-37 | each line extends the parse, skipping comments and empty lines and stopping at a bad line |
| LegacyList.ParseLinesErrPersists | tools/pkg/legacy/list.go:28-30 | once a line fails, later lines change nothing |
| LegacyList.ParseImagesList | tools/pkg/legacy/list.go:15-40 | the parsing loop computes the parse of the contents split on newlines |
| LegacyList.EntryLines | tools/pkg/legacy/list.go:31-35 | each entry is written as one line, in order |
| LegacyList.EntryLineRoundTrip | tools/pkg/legacy/list.go:27-35 | a written entry is a meaningful line that parses back into the entry |
| LegacyList.ParseWrittenList | tools/pkg/legacy/list.go:21-39 | parsing written lines gives back the entries |
| LegacyList.ParseImagesListRoundTrip | tools/pkg/legacy/list.go:21-39 | entries written one per line and split on newlines parse back into the entries |
| RetrieveImageTags.AllFromImageAgrees | retrieve-image-tags/retrieve-image-tags.py:16-34 | the script splits an image exactly as the Go tool does whenever it contains "/", dropping segments after the third alike, and raises IndexError exactly when it has no "/" |
| RetrieveImageTags.FilteredSpec | retrieve-image-tags/retrieve-image-tags.py:318-324 | the found tags are exactly the listed tags the version filter finds a match in, and all of them in order without a filter |
| RetrieveImageTags.FilterTags | retrieve-image-tags/retrieve-image-tags.py:317-324 | the filter loop computes the filtered tags in order |
| RetrieveImageTags.IntsLeTotal | retrieve-image-tags/retrieve-image-tags.py:328 | any two version keys are comparable in the sort's list ordering |
| RetrieveImageTags.IntsLeTrans | retrieve-image-tags/retrieve-image-tags.py:328 | the list ordering of version keys is transitive |
| RetrieveImageTags.IntsLeAntisym | retrieve-image-tags/retrieve-image-tags.py:328 | two keys each no greater than the other are equal |
| RetrieveImageTags.SortsLastUnique | retrieve-image-tags/retrieve-image-tags.py:328-329 | at most one tag is the one a stable ascending sort by version key puts last |
| RetrieveImageTags.Latest | retrieve-image-tags/retrieve-image-tags.py:328-329 | "latest" raises ValueError exactly when some dot-separated part is not an integer, IndexError exactly on no tags, and otherwise returns the tag a stable ascending sort puts last |
| RetrieveImageTags.SelectRegistryTags | retrieve-image-tags/retrieve-image-tags.py:317-331 | with latest_entry the first filtered tag or IndexError; with latest the newest filtered tag or the sort's exception; otherwise all filtered tags |
| RetrieveImageTags.OfferedTagsSpec | retrieve-image-tags/retrieve-image-tags.py:299-308 | a tag is offered exactly when some published release with that tag has a semver-valid version and passes the optional filter and constraint |
| RetrieveImageTags.GithubReleaseTags | retrieve-image-tags/retrieve-image-tags.py:293-308 | the release loop offers exactly the tags that pass every check, in release order |
| RetrieveImageTags.Dedup | retrieve-image-tags/retrieve-image-tags.py:336-337 | deduplication keeps exactly the found values |
| RetrieveImageTags.HelmKeptMember | retrieve-image-tags/retrieve-image-tags.py:342-353 | an image is added exactly when some found reference yields it after the Rancher, format, "latest", denylist and already-listed checks |
| RetrieveImageTags.HelmKeptAppend | retrieve-image-tags/retrieve-image-tags.py:342-353 | the images added for two runs of references are those of the first followed by those of the second |
| RetrieveImageTags.HelmKeptRemove | retrieve-image-tags/retrieve-image-tags.py:342-353 | removing one reference from an enumeration removes exactly its contribution from the added images |
| RetrieveImageTags.HelmKeptPermutation | retrieve-image-tags/retrieve-image-tags.py:342-353 | two enumerations of the same references add the same images, up to order |
| RetrieveImageTags.EnumerationsPermute | retrieve-image-tags/retrieve-image-tags.py:337 | two enumerations of the same set are permutations of each other |
| RetrieveImageTags.HelmFullImages | retrieve-image-tags/retrieve-image-tags.py:339-354 | the helm branch's full_images are the added images, sorted |
| RetrieveImageTags.HelmFullImagesOfSet | retrieve-image-tags/retrieve-image-tags.py:337-354 | full_images do not depend on the order the set of found references is enumerated in |
| RetrieveImageTags.ListingUnique | retrieve-image-tags/retrieve-image-tags.py:354 | there is only one sorted, duplicate-free listing of a set |
| RetrieveImageTags.SortListing | retrieve-image-tags/retrieve-image-tags.py:354 | sorting a duplicate-free list of a set's members gives its listing |
| RetrieveImageTags.WantedOfSet | retrieve-image-tags/retrieve-image-tags.py:359-370 | the reported images and tags depend on the set of found tags, not on its enumeration |
| RetrieveImageTags.WantedStep | retrieve-image-tags/retrieve-image-tags.py:359-367 | a Rancher image changes nothing; another image adds itself when it misses some found tag, and adds every found tag it misses |
| RetrieveImageTags.ScanTags | retrieve-image-tags/retrieve-image-tags.py:362-367 | the tag scan of one image appends the image if it misses some tag and each missed tag, without duplicates |
| RetrieveImageTags.ImagesAndTags | retrieve-image-tags/retrieve-image-tags.py:355-370 | the reported images are exactly the non-Rancher images missing some found tag, and the reported tags exactly the found tags some non-Rancher image misses, each sorted and listed once |
| RetrieveImageTags.HelmImageDockerHub | retrieve-image-tags/retrieve-image-tags.py:343 | a reference and the same reference under "docker.io/" yield the same image |
| RetrieveImageTags.HelmKeptPair | retrieve-image-tags/retrieve-image-tags.py:342-353 | the images added for two references are those each one yields, in order |
| RetrieveImageTags.SortStringsPair | retrieve-image-tags/retrieve-image-tags.py:354 | a list holding the same string twice sorts to itself |
| RetrieveImageTags.HelmListsImageTwice | retrieve-image-tags/retrieve-image-tags.py:337-354 | as written, an image found both with and without "docker.io/" appears twice in full_images |
| RetrieveImageTags.HelmImageNginx | retrieve-image-tags/retrieve-image-tags.py:342-353 | "nginx:1.25" with an empty denylist and nothing listed is kept, so it witnesses the duplicate |
| RetrieveImageTags.HelmWantedOfSet | retrieve-image-tags/retrieve-image-tags.py:337-354 | the wanted helm images depend on the set of found references, not on its enumeration |
| RetrieveImageTags.HelmFullImagesUnique | retrieve-image-tags/retrieve-image-tags.py:339-354 | corrected, full_images list every wanted image exactly once, in ascending order |

## Left out

- Reading and writing files, YAML and JSON decoding and encoding, environment variables, flag wiring and printing are not modelled; parsed values are the inputs (tools/internal/config/config.go Parse/Write, tools/pkg/config/config.go Parse/Write, pkg/config/config.go, pkg/regsync/config.go, tools/pkg/legacy/config.go).
- tools/internal/git/git.go is not part of this model: it only runs `git`; the merge-base configuration is an input `Result` of the validators.
- tools/internal/autoupdate/registries.go is not part of this model: its HTTP clients are replaced by the page oracle `respond` of `Registry.GetImageTags` and the `send` transport of the retry loop.
- The GitHub API (release listing, latest release, file contents, pull-request listing and creation), the registry APIs, the Docker Hub repository listing, `oras.Copy` and the `helm` executable are parameters (`list`, `latest`, `fetch`, `pull`, `existingRepositories`, template outputs).
- Regular expressions, semver parsing and constraint checks, SHA-256 and YAML decoding are function-typed parameters; only base32 (RFC 4648, section 6) is written out, because the branch name's length and alphabet depend on it.
- `time.Sleep` and the floating-point `math.Pow` in the retry loop: the model records the integer wait 2^n seconds after attempt n instead of sleeping.
- Go map iteration and Python set iteration order are parameters (an enumeration of the keys); `ConfigEntry` runs are sequential, and no concurrency is modelled.
- Registry.RegistryInformation: requires a "/" in the image, because the Go code indexes past the end of the split (a panic) otherwise; the Python twin raises IndexError, which `RetrieveImageTags.AllFromImage` returns.
- Registry.BuildRequest: its own contract states only the error case; the URL rules per registry are stated by `Registry.BuildRequestRules`, `Registry.NextPageKept` and `Registry.FollowUpAdvances`.
- Registry.Newest: states maximality only when the comparison passed in is a total preorder, because semver's ordering is a parameter.
- Registry.SelectedTags: among versions that compare equal (semver build metadata), the Go code keeps whichever the unstable `sort.Sort` leaves last; the model keeps the first maximal one in list order, so with such ties the offered tag's spelling may differ.
- GithubReleases.GithubRelease.VersionsFromAllReleases, TaggedImagesFile.ListAllReleases, TaggedImagesFile.GetUpdateImages, Registry.GetImageTags and Registry.GetUpdateImages: require that the chain of next-page requests ends within a ghost bound (`ChainEnds`, `PagesEnd`); a listing whose pages never end makes the Go recursion or loop run forever, which the model does not capture.
- TaggedImagesFile.ScanLines: `bufio.Scanner` stops with "token too long" on a line longer than its 64 KiB buffer, and `parseImagesFromContent` then returns that error after the earlier lines; the model splits lines of any length, because it works on characters rather than the bytes the buffer counts.
- The SUSE token request (`getSuseAuthToken`) is the input `suseToken` of `Registry.BuildRequest`; the JSON bodies of the registry responses are already-decoded pages.
- `%q` quoting does not escape special characters the way Go does; the model wraps the text in double quotes.
- Strategies.NewImage: the `doNotMirror` and `targetRepositories` arguments that the strategies always pass as nil are fixed to nil, so the model's signature drops them.
- The Helm strategy's `helm repo add/update/remove` and `helm template` commands are not modelled; each template run is an input holding its decoded documents or its error.
- The Python script's HTTP listing (`_get_image_tags`), its GitHub client calls, the Helm image extraction (`_extract_images_from_dict`, `_extract_unique_images_from_helm_template`, `_extract_unique_images_from_helm_values`), the `github-latest-release` branch (one tag appended), the loop over the configuration entries and the JSON output are not modelled.
- RetrieveImageTags: `_image_tag_already_exist`'s regular-expression search of the images list is the parameter `listed`, and `int()` is the parameter `toInt`; the registry branch's `values['images'][0]` on an empty list (an IndexError) is not modelled.

## Findings

| source | as written | input that shows it | evidently intended | confidence | as-written member | corrected member |
|---|---|---|---|---|---|---|
| tools/internal/config/image.go:182-193 | `DeepCopy` copies every field except `TargetRepositories`, which the copy leaves empty | an image restricted to "docker.io/rancher": its copy is mirrored to every default target | the copy equals the original, as `Artifact.DeepCopy` does and tools/internal/config/image_test.go:281 expects | high, not executed | Images.DeepCopyDropsTargetRepositories | Artifacts.Artifact.DeepCopy |
| tools/internal/autoupdate/registry.go:170-187 | for ghcr.io the next-page URL, query included, becomes the request URL, and then `RawQuery` is overwritten with the empty parameter set | a Link header `</v2/o/r/tags/list?last=x&n=200>; rel="next"`: the follow-up request equals the first-page request | the follow-up request asks for the linked page, query kept | medium, not executed | Registry.NextPageQueryLost | Registry.FollowUpAdvances |
| tools/internal/autoupdate/githubtaggedimagesfile.go:132 | `strings.HasPrefix("rancher/", repository)` has its arguments reversed: only prefixes of "rancher/" are skipped | the line "rancher/longhorn-manager:v1.4.0" is kept, while "rancher:v1" is skipped | every rancher/ image is skipped, as the Python twin does at retrieve-image-tags/retrieve-image-tags.py:344 and 360 | high, not executed | TaggedImagesFile.RancherImagesNotSkipped | TaggedImagesFile.RancherImagesSkipped |
| retrieve-image-tags/retrieve-image-tags.py:337-354 | found references are deduplicated by `set()` before "docker.io/" is stripped | the references "docker.io/nginx:1.25" and "nginx:1.25" give `full_images` == ["nginx:1.25", "nginx:1.25"] | each image is listed once, as the Go Helm strategy does by deduplicating after stripping (tools/internal/autoupdate/helmlatest.go:141-146,173) | low, not executed | RetrieveImageTags.HelmListsImageTwice | RetrieveImageTags.HelmFullImagesUnique |
