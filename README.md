# aptly snapshot publishing, modelled in Dafny

This project models the update machinery of the aptly Puppet profile. The
machinery turns a declarative description of publishing points into calls to
the `aptly` command-line tool. Each publishing point has components. For each
component the machinery decides which snapshot backs it:

- it creates a snapshot from a mirror, a local repo, a script or a merge of
  other components;
- it discards the new snapshot when it has the same content as the previous
  one (type `change`);
- it can go back N versions or N seconds in the snapshot history (`lag`);
- it schedules older snapshots for removal (`keep`).

It then creates or switches the publish point. Dropping a snapshot descends
into the sources of a merge snapshot. The tool's refusals ("snapshot is
published", "used as source") are tolerated.

Modules, leaf first:

- `Wrappers`, `Text`, `Order`, `Values`: Option/Result, the Ruby string
  operations the code relies on (`=~` on a literal, `split`, `gsub`, `chomp`,
  `lines`, `to_i`, `to_s`), Ruby's string `<`, and the YAML/Ruby values a
  configuration is made of (`nil`, integers, strings, arrays, hashes that
  keep insertion order).
- `Protocol`: the text protocol spoken with `aptly`. It covers the argument
  vectors of each command, the parsing of `snapshot show` and of a merge
  description, the diff verdict, the classification of a failed drop, the
  splitting of a publish path and the `mirror create` flags.
- `Tool`: class `Store`, an abstract model of the `aptly` binary and its
  database (mirrors, snapshots with content, description and sources, publish
  points). It also records the log of every command run. Mirror updates and
  scripts are parameters of the store.
- `Gateway`: class `Aptly`, the gateway of `files/aptly.rb`.
- `Resolve`: the pure selection logic of the engine. It covers the snapshot
  family of a prefix, lag parsing, version and time lag, "older than" and the
  prune plan, and the cases of the script's own test run.
- `Engine`: class `AptlyUpdate` of `files/aptly_update.rb`.
- `Legacy`: class `LegacyRun`, the stand-alone script `files/aptly-update.rb`.
  It reuses an `Aptly` gateway for the commands whose legacy code is the same.
  It keeps its own one-time listings and its list of snapshots to drop.
- `FindKey` and `FindKeyLegacy`: the two `find_key` Puppet functions. These
  are the newer API version and the older parser-function version.

The wall clock is a parameter. The gateway's `now` is a constant string, and
the engine's `pivotFor` maps a lag in seconds to the formatted pivot time.
`aptly version` is a boolean of the store: it says whether the tool accepts
`-force-components`.

## Model

| member | source | states |
|---|---|---|
| FindKey.FindKey | lib/puppet/functions/find_key.rb:11-34 | answers only for a Hash and a String, with an argument error carrying the count otherwise; the answer is the first hit of a depth-first search in insertion order, and `nil` when there is none |
| FindKey.FindInMatchesHits | lib/puppet/functions/find_key.rb:23-34 | the recursive search with its `NotFound` sentinel yields exactly the first element of the list of all hits, or `NotFound` when that list is empty |
| FindKey.SearchNestedMatchesHits | lib/puppet/functions/find_key.rb:26-30 | the `each` loop from entry i yields the first hit among entries i and later, skipping non-hash values and nested hashes without the key |
| FindKey.OccursIffHits | lib/puppet/functions/find_key.rb:23-33 | the search finds a value if and only if the key occurs in the hash or in some hash nested through hash values |
| FindKey.HitsFromIffOccurs | lib/puppet/functions/find_key.rb:26-30 | the same equivalence for the loop over entries i and later |
| FindKey.SpecExamples | spec/functions/find_key_spec.rb:5-57 | the documented cases: argument errors, empty hash, direct and nested hits, a hit behind an empty sibling hash, and a `nil` value that ends the search |
| FindKeyLegacy.FirstHashIndex | lib/puppet/parser/functions/find_key.rb:29-31 | the position of the first hash-valued entry, no entry before it being a hash; none exactly when no entry is a hash |
| FindKeyLegacy.FindKey | lib/puppet/parser/functions/find_key.rb:17-32 | a wrong argument count is a parse error carrying the count; a non-hash first argument is a parse error; otherwise the answer is the value found along the chain of first nested hashes, or `nil` |
| FindKeyLegacy.ChainHitAgreesWithNewer | lib/puppet/parser/functions/find_key.rb:28-32 | whenever the older function finds the key, the newer function finds the same value |
| FindKeyLegacy.SkipNonHashes | lib/puppet/functions/find_key.rb:27-29 | the newer loop passes over non-hash entries and answers what the first hash holding the key answers |
| FindKeyLegacy.DivergesOnEmptyFirstHash | lib/puppet/parser/functions/find_key.rb:29-31 | on a hash whose first nested hash lacks the key but a later one holds it, the older function answers `nil` and the newer one the value |
| Protocol.Message | files/aptly.rb:36-39 | a command error's message starts with "Command `" and ends with its exit code; a script failure has a text command and no message |
| Protocol.ComponentOrderMatches | files/aptly.rb:270-274 | the `-component=` list of `publish switch` names the components in the same order as the snapshot arguments that follow it |
| Protocol.SplitPathRoundTrip | files/aptly.rb:265-266 | splitting `prefix/distribution` gives back both parts, and a path without a slash gets the prefix "." |
| Protocol.SplitPathDistribution | files/aptly.rb:265 | the distribution of a split path is non-empty and holds no slash |
| Protocol.DescriptionOfShowOutput | files/aptly.rb:169-172 | reading the `Description: ` line of `snapshot show` output gives back the stored description |
| Protocol.LineageOfMergeDescription | files/aptly.rb:186-191 | parsing a merge description ("Merged from sources: 'a', 'b'") gives back the merged sources in order |
| Protocol.SnapshotsDiffer | files/aptly.rb:198-201 | two snapshots differ exactly when the diff output lacks "Snapshots are identical" |
| Protocol.ClassifyDropFailure | files/aptly.rb:176-183 | a failed drop is "published elsewhere", "merged elsewhere" or fatal, exactly according to which of the two error lines the output holds, the published one first |
| Protocol.SubstituteBetweenPieces | files/aptly.rb:74 | every `##APTLY##` in a script text is replaced by the aptly command |
| Protocol.ListingRoundTrip | files/aptly.rb:111-121 | `lines.map(&:chomp)` of a `-raw` listing gives back the listed names |
| Protocol.MissingSetting | files/aptly.rb:227-228 | a mirror configuration is refused exactly when its location or release is missing or false, with a command-less error of status 255 |
| Protocol.FlagText | files/aptly.rb:245-250 | a flag is its name followed by Ruby's `to_s` of the value: `nil` gives the bare name, booleans, integers and strings their text; lists and hashes are outside the model (see Left out) |
| Protocol.ArchitecturesFlag | files/aptly.rb:242-244 | no flag for an empty list, string or hash; for a non-empty list, one flag joining the flattened list with commas, failing exactly when that join fails; a non-empty string fails (`String#flatten` does not exist), and so do `nil`, booleans and integers (no `empty?`) |
| Protocol.ArchitecturesOfNames | files/aptly.rb:242-244 | a non-empty list of architecture names gives the single comma-joined flag |
| Protocol.ArchitecturesSkipEmptyList | files/aptly.rb:242-244 | an empty list among the architectures is flattened away and leaves no empty field in the flag |
| Protocol.FilterFlag | files/aptly.rb:247 | a quoted `-filter=` flag exactly when the filter string is non-empty |
| Protocol.MirrorFlags | files/aptly.rb:242-248 | the flags after `mirror create`: architectures, then `-with-sources=` and `-with-udebs=` with the settings' text, then the filter; fails exactly when one of them fails |
| Protocol.ReposArgument | files/aptly.rb:258 | no argument for an empty repo list; a missing list fails as in Ruby (`nil.empty?`) |
| Protocol.MirrorTail | files/aptly.rb:250-258 | the arguments after the merged flags: `-force-components=` when the tool supports it, then `-filter-with-deps` exactly when that setting is truthy, then name, location, release and the joined repos; fails exactly when a part is missing |
| Protocol.MirrorDefaults | files/aptly.rb:230-258 | a configuration with only location, release and no repos produces `-with-sources=false -with-udebs=false` (plus `-force-components=false` when supported), then name, location and release |
| Tool.Store.Show | files/aptly.rb:169-171 | `snapshot show` succeeds exactly for an existing snapshot, and its output carries that snapshot's description |
| Tool.Store.Diff | files/aptly.rb:198-200 | `snapshot diff` succeeds exactly when both snapshots exist, and reports them identical exactly when their contents agree |
| Tool.Store.Drop | files/aptly.rb:174-184 | `snapshot drop` succeeds exactly for an existing snapshot that is neither published nor a merge source, and otherwise prints the error line the gateway recognises |
| Gateway.Checked | files/aptly.rb:46-62 | a command succeeds exactly on exit status 0, and a failure carries the argument vector, the status and the output |
| Gateway.UpdatePlan | files/aptly.rb:130-140 | the mirrors actually updated are those asked for that were not already updated, each once |
| Gateway.UpdatePlanRepeated | files/aptly.rb:128-132 | asking again for mirrors already updated in this run runs no command |
| Gateway.Resolved | files/aptly.rb:274 | the component snapshots can be passed to `aptly` only when every component resolved to a snapshot, keeping order |
| Gateway.JoinArchitectures | files/aptly.rb:279 | the architectures of a new publish point are the list joined with commas; a non-list fails |
| Gateway.PointIndexAppended | files/aptly.rb:276-282 | a created publish point serves exactly the given snapshots |
| Gateway.PointIndexSwitched | files/aptly.rb:268-274 | a switched publish point serves exactly the given snapshots |
| Gateway.Aptly.constructor | files/aptly.rb:12-23 | a gateway over the given tool, with the given separator, command and time, and no mirror updated yet |
| Gateway.Aptly.Mirrors | files/aptly.rb:111-113 | runs `mirror list -raw` and returns the tool's mirrors |
| Gateway.Aptly.Snapshots | files/aptly.rb:115-117 | runs `snapshot list -raw` and returns the tool's snapshots |
| Gateway.Aptly.PublishPoints | files/aptly.rb:119-121 | runs `publish list -raw` and returns the "prefix distribution" keys of the publish points |
| Gateway.Aptly.UpdateMirror | files/aptly.rb:130-140 | on success the commands run are exactly the update plan, every requested mirror is remembered as updated, and only mirror state changes |
| Gateway.Aptly.UpdateOne | files/aptly.rb:132-138 | a mirror updated before by this object is skipped without running anything; otherwise exactly one `mirror update`, remembered only when it succeeds |
| Gateway.Aptly.CreateMirror | files/aptly.rb:221-261 | an existing mirror is left alone; a missing location or release is refused before any command, including for a string configuration read by substring as `String#[]` does; on success the mirror exists, and a new one was made by a `mirror create` whose arguments are exactly the merged flags and the tail |
| Gateway.Aptly.CreateSnapshotMirror | files/aptly.rb:145-154 | updates the mirror (once per run), then creates the snapshot `prefix SEP SEP now`, which did not exist before; existing snapshots are untouched |
| Gateway.Aptly.CreateSnapshotRepo | files/aptly.rb:156-164 | creates the snapshot `prefix SEP SEP now` from the repo; existing snapshots are untouched |
| Gateway.Aptly.Merge | files/aptly.rb:212-219 | creates the snapshot `prefix SEP SEP now` merging the sources; existing snapshots are untouched |
| Gateway.Aptly.SnapshotDiff | files/aptly.rb:198-201 | succeeds exactly when both snapshots exist, and then answers whether their contents differ |
| Gateway.Aptly.DropSnapshot | files/aptly.rb:166-192 | a missing snapshot is an error; published snapshots are never removed; only it and its merge lineage can disappear; it publishes nothing; on success its own drop and, for a merge snapshot, the drop of every snapshot of its lineage were run, even when it was retained |
| Gateway.Aptly.DropSources | files/aptly.rb:186-191 | dropping the sources of a merge in turn keeps the merge retained, removes only snapshots ranked below it, publishes nothing, and on success has run the drop of every source |
| Gateway.Aptly.DropLogged | files/aptly.rb:166-192 | a drop publishes nothing, removes no published snapshot, and on success has run the drop of the name |
| Gateway.Aptly.SnapshotDedup | files/aptly.rb:203-210 | with no previous snapshot the new one is kept and nothing runs; otherwise a new snapshot with different content is kept unchanged, and one with the same content is replaced by the previous one and dropped |
| Gateway.Aptly.Script | files/aptly.rb:73-107 | runs the text with `##APTLY##` replaced; a non-zero status is an error with the mixed output, otherwise the answer is the chomped standard output |
| Gateway.Aptly.Publish | files/aptly.rb:263-284 | an unsplittable path fails before any command; on success the publish point serves exactly the component snapshots, after `publish switch` when the point existed and `publish snapshot` otherwise |
| Gateway.Aptly.Cleanup | files/aptly.rb:288-291 | runs `db cleanup` and changes no state |
| Resolve.RubyIndex | files/aptly_update.rb:56-61 | Ruby array indexing: non-negative indices from the front, negative ones from the back, `nil` outside |
| Resolve.Family | files/aptly_update.rb:129 | the snapshots whose names start with `prefix SEP SEP`, in ascending order |
| Resolve.Extend | files/aptly_update.rb:141-142 | the family with the current snapshot last, appended only when it is not already last |
| Resolve.ParseLag | files/aptly_update.rb:88-105 | an integer is a version lag; `Nv` other than `0v` is exactly the version lag N; `Ns` with N > 0 is a time lag; `0`, `0v`, `0s` and anything else mean the newest |
| Resolve.ParseLagOfCount | files/aptly_update.rb:95-99 | the text written for N versions or N seconds parses back to N, and a count of 0 versions means the newest |
| Resolve.SelectVersion | files/aptly_update.rb:55-65 | going back N versions picks the N-th newest, the oldest when history is too short, and Ruby's negative-index element for a negative N |
| Resolve.Stamp | files/aptly_update.rb:73 | the timestamp of a name is the text after the first `SEP SEP`, and there is none exactly when the name holds no `SEP SEP` |
| Resolve.StampOfNewName | files/aptly.rb:146 | the timestamp of a snapshot the gateway names is the `now` it was created with |
| Resolve.Candidates | files/aptly_update.rb:72-75 | the candidates for a time lag are exactly the family members stamped no later than the pivot; a name without a stamp is an error |
| Resolve.LastCandidateIsLastDue | files/aptly_update.rb:81 | the last candidate is the last family member stamped no later than the pivot |
| Resolve.SelectTime | files/aptly_update.rb:67-86 | a time lag picks the last snapshot stamped no later than the pivot, or the oldest when none is |
| Resolve.Select | files/aptly_update.rb:88-105 | the selected snapshot is always in the family, and only a time lag can fail |
| Resolve.Older | files/aptly_update.rb:107-112 | exactly the family members that sort before the selected snapshot, still in order |
| Resolve.PrunePlan | files/aptly_update.rb:114-120 | the snapshots to drop are the oldest of the older ones, leaving `keep` of them; nothing for a negative `keep` |
| Resolve.PruneSparesSelected | files/aptly_update.rb:146-150 | pruning never drops the selected snapshot, nor anything newer than it |
| Resolve.PruneOldestFirst | files/aptly_update.rb:114-120 | every dropped snapshot sorts before every kept older one |
| Resolve.PruneBounds | files/aptly_update.rb:124-146 | `keep` -1 drops nothing and `keep` 0 drops every older snapshot |
| Resolve.OlderOfIncreasing | files/aptly_update.rb:107-112 | in a strictly increasing family the older snapshots of member i are the first i members |
| Resolve.PruneOfIncreasing | files/aptly_update.rb:114-120 | in a strictly increasing family, keeping k older than member i drops the first i - k members |
| Resolve.KeepExample | files/test.rb:108-148 | six snapshots with `keep: 1`: the newest is selected and the four oldest are dropped |
| Resolve.LagVersionsExample | files/test.rb:299-342 | six snapshots with lag `3v`: the third is selected and only the first is dropped with `keep: 1` |
| Resolve.DayLag | files/test.rb:253-296 | the lag `86400s` is a time lag of one day |
| Resolve.DueOfLagFamily | files/test.rb:253-296 | with the pivot at the third stamp, the candidates are the three oldest snapshots |
| Resolve.LagTimeExample | files/test.rb:253-296 | a one-day time lag whose pivot falls on the third stamp selects the third snapshot |
| Engine.DefaultValue | files/aptly_update.rb:4-7 | a missing (`nil`) setting takes the default and any other value is kept, `false` included |
| Engine.AllResolved | files/aptly_update.rb:40-43 | merge sources can be merged only when every one resolved, keeping their order |
| Engine.MergeItems | files/aptly_update.rb:40 | the sources `merge` maps over: the items of a list, none for an empty hash, and nothing else can be mapped |
| Engine.ExplicitNames | files/aptly_update.rb:25-27 | the names of the merge sources exactly when every one is set to a snapshot by name, one per source, in order |
| Engine.PublishArchitectures | files/aptly_update.rb:162 | `config['architectures'] || ['all']`: a truthy setting is used, anything else means `all` |
| Engine.AllArchitectures | files/aptly_update.rb:162 | the default architectures are published as `all` |
| Engine.AptlyUpdate.constructor | files/aptly_update.rb:14-21 | an engine over the given gateway, separator and pivot time |
| Engine.AptlyUpdate.Prune | files/aptly_update.rb:114-120 | drops the oldest of the older snapshots until `keep` remain: on success the drop of each of the first `|older| - keep` was run; nothing runs when there are at most `keep`; nothing is published and no published snapshot goes |
| Engine.AptlyUpdate.Dedup | files/aptly_update.rb:139 | the answer is the one `Deduped` picks against the database as it was: only type `change` with a non-empty family deduplicates: a new snapshot whose content differs from the newest is kept and nothing changes; an identical one is replaced by the newest and its drop was run |
| Engine.AptlyUpdate.Settle | files/aptly_update.rb:141-150 | the answer is the lag's selection from the family with the current snapshot appended; the drop of every snapshot of the prune plan for it was run; a non-integer `keep` fails; with nothing to prune the tool is untouched |
| Engine.AptlyUpdate.ResolveSnapshot | files/aptly_update.rb:122-154 | a non-hash configuration fails; the family is the one listed at the start; type `once` answers the newest of the family without touching the tool; no recognised source answers `nil` and leaves the database as it was; an explicit snapshot below an empty family answers that name; any other snapshot answered is the lag's selection from the family with the candidate appended, where the candidate is the source's snapshot after the `change` dedup against the database as the source left it, and `keep` is an integer; the drop of every snapshot of the prune plan for the configured `keep` was run; an explicit source's snapshot is the name given; published snapshots are never removed |
| Engine.AptlyUpdate.Finish | files/aptly_update.rb:139-150 | on success `keep` is an integer, the answer is the lag's selection from the family with the deduplicated candidate appended, and the drop of every snapshot of the prune plan for it was run; an empty family with the default lag answers the snapshot and leaves the database as it was |
| Engine.AptlyUpdate.ResolveInitial | files/aptly_update.rb:23-53 | an explicit snapshot is answered as given; a script without `update` runs exactly the substituted text and answers its chomped output or its failure; a successful script answer is always that output; no recognised source answers `nil`; a mirror, merge or repo source answers the newly created `prefix SEP SEP now` |
| Engine.AptlyUpdate.MergeSource | files/aptly_update.rb:38-43 | on success the new `prefix SEP SEP now` snapshot exists with one source per merge item, in order, and `snapshot merge` of exactly those sources was the last command; sources set to snapshots by name below an unused prefix are merged as those names |
| Engine.AptlyUpdate.ResolveSources | files/aptly_update.rb:40-42 | one resolved source per merge item; items set to snapshots by name below an unused prefix resolve to those names without changing the tool |
| Engine.AptlyUpdate.Publish | files/aptly_update.rb:157-180 | a point without components is skipped and runs nothing; on success the published name is the point or the chomped output of the name script, and the point under its split path serves one snapshot per component, in configuration order; a created point gets the configured architectures, or `all` |
| Engine.AptlyUpdate.ResolveComponents | files/aptly_update.rb:164-168 | one resolved snapshot per component, in configuration order, and no published snapshot goes |
| Engine.AptlyUpdate.PublishAs | files/aptly_update.rb:173-179 | the published name is the point or the chomped output of the name script; the point serves the resolved snapshots; a created point gets the configured architectures or `all` |
| Engine.AptlyUpdate.Mirror | files/aptly_update.rb:182-184 | an existing mirror is left alone; on success the mirror exists |
| Legacy.LagVersions | files/aptly-update.rb:326-337 | a version lag of N picks `existing[-N]` and forgets the N newest; 0 picks the oldest; a negative lag that indexes the family raises; too short a history picks the oldest and forgets all |
| Legacy.LagSeconds | files/aptly-update.rb:339-352 | a time lag keeps the snapshots stamped no later than the pivot: the selected one is the last of them and `older` is exactly the ones before it, in order; with none due `older` is empty and the oldest, or the current snapshot without history, is selected; an unstamped name raises |
| Legacy.ApplyLag | files/aptly-update.rb:325-358 | `0`, `0v` and `0s` change nothing; a string `Nv` raises; an integer is a version lag; `Ns` is a time lag; anything else changes nothing |
| Legacy.Doomed | files/aptly-update.rb:360-367 | the snapshots queued for dropping are the oldest ones, leaving `keep`; nothing for a negative `keep` |
| Legacy.DoomedOldestFirst | files/aptly-update.rb:362-366 | every queued snapshot sorts before every remaining one |
| Legacy.PrunePlanIsDoomed | files/aptly-update.rb:360-367 | the script's retention step agrees with the engine's prune plan on the same older snapshots |
| Legacy.VersionLagAgrees | files/aptly-update.rb:326-331 | for 1 <= N below the family size, the script and the engine select the same snapshot, and the script forgets exactly the newer ones |
| Legacy.ZeroVersionsIsOldest | files/aptly-update.rb:325-334 | an integer lag 0 makes the script select the oldest snapshot where the engine selects the newest |
| Legacy.VersionLagWithoutHistory | files/aptly-update.rb:332-337 | an integer lag with an empty family answers `nil` |
| Legacy.PinnedNames | files/aptly-update.rb:258-259 | the names of the merge sources exactly when every one is pinned to a snapshot, one per source, in order |
| Legacy.LegacyRun.constructor | files/aptly-update.rb:403-407 | a run over a gateway whose separator is the doubled script separator, with empty listings and nothing to drop |
| Legacy.LegacyRun.Script | files/aptly-update.rb:130-165 | runs the text as given (no substitution); a non-zero status is an error, otherwise the answer is the chomped standard output |
| Legacy.LegacyRun.Keep | files/aptly-update.rb:360-367 | succeeds exactly for an integer `keep` when there is a previous snapshot or nothing to drop, and then queues exactly the doomed snapshots |
| Legacy.LegacyRun.ResolveSnapshot | files/aptly-update.rb:254-371 | a non-hash configuration fails; an unrecognised one answers `nil`; a non-integer `keep` fails; `once` without lag answers the newest of the family; a pinned snapshot below an empty family answers that name and leaves the database and the queue as they were; for a recognised source the answer is what `ApplyLag` selects after the type step `TypeStep` on the listed family, `keep` is an integer, and the queue ends with the snapshots `Doomed` names; the source's answer is the pinned name or the chomped script output; the queue only grows |
| Legacy.LegacyRun.Settle | files/aptly-update.rb:287-371 | a non-integer `keep` fails; `once` with the default lag answers the newest of the family; with no family, no lag and an integer `keep` the snapshot is answered and the database and the queue stay as they were; on success the type step's result satisfies `TypeStep`, the answer is what `ApplyLag` selects from it, and the queue gains exactly the snapshots `Doomed` names; for `change` the snapshot is kept exactly when its content differs from the newest's; no published snapshot goes and the queue only grows |
| Legacy.LegacyRun.ApplyType | files/aptly-update.rb:301-323 | `everytime` keeps the new snapshot; with no history nothing changes; `once` uses the newest and forgets it, after running the drop of the new one; `change` keeps a new snapshot whose content differs, and otherwise answers the newest, forgets it, and has run the drop of the new one; every result satisfies `TypeStep` |
| Legacy.LegacyRun.Source | files/aptly-update.rb:254-283 | an explicit snapshot is answered as given; a script without `update` runs exactly its text and answers its chomped output or its failure; an unrecognised configuration is reported; a mirror, merge or repo source answers the newly created snapshot |
| Legacy.LegacyRun.ScriptSource | files/aptly-update.rb:261-271 | a non-string script fails; on success the script was the last thing run and its chomped output is the answer; snapshots and points are untouched |
| Legacy.LegacyRun.MergeSource | files/aptly-update.rb:240-252 | on success the new `prefix SEP SEP now` snapshot exists with one source per merge item, in order, and `snapshot merge` of exactly those sources was the last command; sources pinned to snapshots below an unused prefix are merged as those names |
| Legacy.LegacyRun.ResolveSources | files/aptly-update.rb:245-247 | one resolved source per merge item; items pinned to snapshots below an unused prefix resolve to those names |
| Legacy.LegacyRun.Publish | files/aptly-update.rb:373-396 | on success the point serves exactly the component snapshots, switched when its key was in the listing taken at start and created otherwise |
| Legacy.LegacyRun.PublishPoint | files/aptly-update.rb:410-429 | a point without components is skipped and runs nothing; on success the name is the point or the chomped output of the name script, the point serves one snapshot per component in configuration order, and the last command switched it when its key was in the start listing and created it otherwise |
| Legacy.LegacyRun.ResolveComponents | files/aptly-update.rb:418-420 | one resolved snapshot per component, in configuration order, and the queue only grows |
| Legacy.LegacyRun.PublishAs | files/aptly-update.rb:422-428 | the name is the point or the chomped output of the name script; the point serves the resolved snapshots, switched or created according to the start listing |
| Legacy.LegacyRun.DropCondemned | files/aptly-update.rb:431-435 | publishes nothing, and on success the drop of every queued snapshot was run |
| Legacy.LegacyRun.Run | files/aptly-update.rb:398-438 | the listings are taken once at the start; a non-hash configuration fails; on success nothing is published after the publishing loop, every queued snapshot's drop was run after it, and the last command is `db cleanup` |
| Text.FieldsOfJoin | files/aptly.rb:189 | splitting on a separator gives back the parts that were joined with it |
| Text.ReplaceAllOfJoin | files/aptly.rb:74 | a global substitution replaces every occurrence of the pattern and nothing else |
| Text.ChompTerminated | files/aptly.rb:112 | `chomp` removes exactly one trailing newline |
| Text.ParseNatOfNatToString | files/aptly_update.rb:96 | `to_i` of a written number gives the number back |
| Values.Flatten | files/aptly.rb:243 | `flatten` leaves no nested list, and leaves a list without nested lists as it was |
| Values.JoinItemsOfStrings | files/aptly.rb:279 | joining a list of strings is the plain join |
| Order.BelowTotal | files/aptly_update.rb:110 | Ruby's string `<` orders any two different names |
| Order.BelowTransitive | files/aptly_update.rb:110 | Ruby's string `<` is transitive |

## Left out

- Spawning processes, reading their output streams and waiting for them
  (`Open3` in `run` and `script`) are not modelled. The `Store` answers each
  command from its abstract database, and a script's outcome is a function
  given to the store.
- Logging and every message written to standard error are left out. The
  message of the legacy top-level `rescue` quotes the error instead of each
  argument; that is output only.
- The wall clock (`Time.new`, `strftime`) is a parameter. The gateway's `now`
  is a constant, and the engine's pivot for a lag of N seconds is `pivotFor(N)`.
- `aptly_version` and its `Gem::Version` comparison are replaced by the
  store's boolean `forceComponents`.
- YAML loading of `publish.yaml` is left out; configurations are `Value`s.
  Hashes are assumed to have unique keys. Floating-point lags are not
  modelled.
- Regular expressions are modelled only on names without regex
  metacharacters, newlines or ", ". Prefixes are interpolated into patterns
  unescaped, so other names would change their meaning.
- Legacy.ApplyLag: follows Ruby before 3.2. There `lag =~ /.../` on an
  Integer, a list or a boolean answers `nil` (`Object#=~`), so an Integer
  lag is a version lag and other non-strings are an unknown lag. Ruby 3.2
  removed `Object#=~`, and there such a lag raises at
  files/aptly-update.rb:326. The engine's `case`/`when` does not depend on it.
- Engine.AptlyUpdate.ResolveInitial: an explicit `snapshot` that is not a
  string and not `nil` is a fault at once. Ruby returns any value from
  files/aptly_update.rb:25-27 and carries it on into the dedup, lag and
  keep steps; snapshot names are strings in the model, so such a value
  cannot be carried.
- Legacy.LegacyRun.Source: a pinned `snapshot` that is neither a string
  nor `nil` is a fault at once, where Ruby carries the value on; snapshot names are
  strings in the model.
- Gateway.Aptly.CreateMirror: a configuration that is neither a hash nor a
  string is a fault. Ruby raises a `NoMethodError` or a `TypeError`, both
  faults, at `config['location']`. A string configuration is modelled as
  Ruby reads it: `String#[]` looks for a substring.
- Gateway.Aptly.Script: `cmd.gsub!` at files/aptly.rb:74 rewrites the
  caller's string in place, so the configuration's `script` or `name` text
  holds the substituted command afterwards. The model returns the output
  and leaves the configuration value as it was; nothing reads that text a
  second time.
- Protocol.FlagText: Ruby's `to_s` of a list or a hash, and so
  `Values.JoinItems` of a list holding a hash and the hash case of
  `Protocol.ArchitecturesFlag` (`Hash#flatten`, then `join`), are not
  modelled.
  For those values the model answers a fault where Ruby produces text.
- Gateway.Aptly.Cleanup: never fails. The modelled tool's `db cleanup`
  always exits with status 0, so the `RunError` that `run` raises on a
  non-zero status (files/aptly.rb:288-291, 46-62) is not modelled for it.
- Tool.Store.RunScript: a script is modelled as not changing the aptly
  database; only its outcome, a function given to the store, is modelled.
  In the source a script runs with the aptly command substituted and may
  call aptly itself, for instance to create the snapshot it answers. So a
  script-sourced snapshot must exist before the script runs, and the
  guarantees that rest on this are not promised for such scripts: the
  database kept across `Gateway.Aptly.Script`, `Legacy.LegacyRun.Script`,
  `Legacy.LegacyRun.ScriptSource` and the name scripts of the `Publish`
  and `PublishPoint` methods, and so `Kept` across `ResolveSnapshot`.
- Components given as a list of pairs instead of a hash are not modelled;
  such a configuration fails.
- The type `once` with an empty family makes the engine answer `nil`, as
  written (the check `existing_snapshots.length` is always true in Ruby).
- The legacy script's lag quirks are modelled as written. These are: an
  integer lag 0 picks the oldest snapshot, a string `Nv` lag raises, and
  retention reads `prev[0]`, which raises when there is no previous snapshot.
