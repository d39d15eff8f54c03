# IES4 consolidator — a Dafny model

This project models the decision logic of the `IES4Consolidator` class. The
class consolidates IES4 military-database JSON files into one document per
country folder. The model covers five parts:

- **Version comparison.** `_compare_versions` splits two version strings on
  dots, pads the shorter one with zeros and compares segment by segment. When
  a segment is not a number it falls back to comparing the whole strings.
- **Merge.** `_merge_json_files` and `_preserve_source_metadata` build one
  output document from a folder's files. Each entity id is kept once, and a
  strictly newer version replaces the stored copy at its first position.
  - `MergeSpec` states the merge as a left fold (`Run`) over a flat list of
    events: a file is recorded, its metadata is preserved, each entity is
    added, or an exception is raised.
  - `MergeEngine.MergeContext` is a class whose fields are the merged lists,
    the per-type id → recorded-version maps, the file records and the title
    state. Its methods update those fields in place.
  - `MergeEngine.MergeJsonFiles` drives the context with nested loops and is
    proved equal to the fold.
  - `MergeTheorems`, `MergeHeader` and `MergeSurvivor` prove what the merged
    document contains, and `MergeProps.MergeCompletes` when the merge raises
    nothing.
  - `MergeExamples` applies those theorems to the "iran" folder that the
    unit tests build.
- **Validation.** `_validate_ies4_compliance` and `_validate_json_structure`
  produce the ordered error messages and fill in the two version stamps.
- **Discovery.** `_discover_country_folders` and `_discover_nested_folders`
  work over a directory tree given as a value. `rglob` is modelled as a
  preorder walk.
- **Orchestration.** `consolidate_by_country`, `_enhance_single_file_metadata`
  and `_save_consolidated_file`. The environment (`Orchestrator.Env`) supplies
  the outside world as values:
  - loading a file, giving `Loaded(doc)` or `Failed`;
  - file sizes;
  - the optional schema and the schema checker;
  - the ISO-8601 parser as a predicate;
  - writing a file, as a success flag;
  - the clock, one timestamp per folder.

Documents are values (`PyJson.Json`), so no source entity is ever mutated;
the merge stores stamped copies.

Behaviour of the code that a reader might not expect, and that the model
keeps:

- **Id tracking.** An entity is tracked whenever it is a dict with an `"id"`
  key, even an empty or non-string one; a list or dict id raises, which
  fails the whole folder.
- **Entities without an id.** They are dropped from the merge.
- **Title and description.** The `title` is taken from the first document
  whose title renders to something other than the default "Consolidated IES4
  Military Database". The `description` is copied from every document met while
  the title is still the default, so a later document can overwrite an
  earlier description.
- **`sourceFileCount`.** It counts every path handed to the merge, failed
  loads included.
- **Required fields.** Validation requires all four of `id`, `type`,
  `timestamp` and `version`.
- **Search depth.** Nested discovery searches at any depth, since `rglob` is
  unbounded.
- **Folder keys.** Two folders whose keys coincide (`uk/army` and
  `uk_army`) share one entry of the results map, and the later folder
  wins.

## Model

| member | source | states |
|---|---|---|
| Versions.Compare | ies4_consolidator.py:405-433 | the result is always one of -1, 0 and 1 |
| Versions.CompareJson | ies4_consolidator.py:416-433 | on two strings it is `Compare`; any result lies in -1..1; it raises (None) only when the two values are not both strings |
| Versions.ParseSegments | ies4_consolidator.py:416-417 | parsing succeeds exactly when every dot-separated part is a digit run, and then gives each part's value in order |
| Versions.SplitDotsRoundTrip | ies4_consolidator.py:416-417 | splitting on dots and rejoining gives back the string, and no part contains a dot |
| Versions.CompareAntisymmetric | ies4_consolidator.py:405-433 | `Compare(a, b) == -Compare(b, a)` for all strings, the fallback included |
| Versions.CompareReflexive | ies4_consolidator.py:405-433 | every version compares equal to itself |
| Versions.CompareTransitive | ies4_consolidator.py:416-430 | on well-formed versions the order is transitive, strictly so when either step is strict |
| Versions.CompareIgnoresTrailingZero | ies4_consolidator.py:419-429 | appending ".0" to either well-formed version never changes the result |
| Versions.CompareExamples | test_ies4_consolidator.py:252-258 | ("2.0","1.0") gives 1, ("1.0","2.0") gives -1, ("1.0","1.0") gives 0, ("1.2.3","1.2.1") gives 1 |
| Versions.MixedVersionsCycle | ies4_consolidator.py:431-433 | with the string fallback the comparison is not an order: "1.10" > "1.9" > "1.5x" > "1.10" |
| PyJson.PyIn | ies4_consolidator.py:383-394 | Python `in` on a dict is key membership, and it raises only on numbers, booleans and null |
| MergeSpec.IndexOfId | ies4_consolidator.py:327-330 | the index found holds the id and no earlier element does; the length means the id is absent |
| MergeSpec.Stamp | ies4_consolidator.py:295-310 | a first insertion is a copy with `_sourceFiles` = [path], `_consolidatedAt` = the merge time, a defaulted `timestamp` and `version` ("1.0"), every other field and the id unchanged |
| MergeSpec.Replaced | ies4_consolidator.py:331-347 | a replacement is a copy with `_sourceFiles`, `_consolidatedAt` and `_replacedVersion` = the recorded version, and no defaults applied |
| MergeEngine.MergeContext.constructor | ies4_consolidator.py:239-263 | the fresh context is the fold's initial state: empty collections, default title, generated description, no trackers |
| MergeEngine.MergeContext.RecordFile | ies4_consolidator.py:272-280 | appending the file record is exactly one file step of the fold |
| MergeEngine.MergeContext.PreserveSourceMetadata | ies4_consolidator.py:371-403 | when it succeeds it is exactly one metadata step of the fold, and it fails exactly when that step raises |
| MergeEngine.MergeContext.AddEntity | ies4_consolidator.py:286-357 | when it succeeds it is exactly one entity step of the fold (insert, replace or skip), and it fails exactly when that step raises |
| MergeEngine.FindEntity | ies4_consolidator.py:327-330 | the loop finds the same index as `IndexOfId` |
| MergeEngine.CountEntities | ies4_consolidator.py:360-366 | the loop builds exactly `EntityCounts` |
| MergeEngine.MergeJsonFiles | ies4_consolidator.py:228-369 | the imperative merge returns exactly what the fold `Merge` returns, a failure included |
| MergeEngine.MergeSource | ies4_consolidator.py:265-290 | after one loaded file the context equals the fold over that file's events; a failure means the whole merge fails |
| MergeEngine.MergeCollection | ies4_consolidator.py:286-290 | one entity type of one file advances the context by that list's events, or the merge fails |
| MergeEngine.MergeItems | ies4_consolidator.py:288-357 | the loop over one list advances the context by one entity event per item, or the merge fails |
| MergeProps.RunKeepsInv | ies4_consolidator.py:286-357 | the fold keeps each list and its tracker in step: every stored entity has a tracked id, each tracked id is stored once |
| MergeProps.RunAbortIsFinal | ies4_consolidator.py:228-369 | an exception ends the merge: nothing after it can revive it |
| MergeProps.MergeEntityKeepsInv | ies4_consolidator.py:293-348 | one entity step, insert or replace or skip, keeps every stored id tracked and every tracked id stored exactly once in its list |
| MergeProps.MergeCompletes | ies4_consolidator.py:265-357 | the merge raises nothing when every loaded document is a dict whose recognised lists hold entities with a hashable id and a string version, or no id |
| MergeTheorems.MergeEntityIds | ies4_consolidator.py:293-348 | after one entity step the stored ids are the first-appearance list of all ids met so far, and the version tracker holds exactly those ids |
| MergeTheorems.EntityCountsMeaning | ies4_consolidator.py:360-366 | a type has a count exactly when its collection is a non-empty list, and the count is that list's length |
| MergeTheorems.RunIds | ies4_consolidator.py:286-357 | after any run the ids of a stored list are the distinct ids met in that type, in first-appearance order, and the tracker holds exactly them |
| MergeTheorems.FirstSeenDistinct | ies4_consolidator.py:293-310 | the first-appearance id list has no repeats |
| MergeTheorems.FirstSeenMembers | ies4_consolidator.py:289-293 | an id is in the first-appearance list exactly when some occurrence carries it |
| MergeTheorems.EntitiesOfEvents | ies4_consolidator.py:265-290 | the entities a merge meets in one type are those of the loaded documents' lists of that type, in file order |
| MergeTheorems.MergedCollection | ies4_consolidator.py:289-310 | each merged list holds one entity per distinct id met in that type, in first-appearance order, so no id appears twice |
| MergeTheorems.MergedCounts | ies4_consolidator.py:360-366 | `entityCounts[type]` is present exactly when that number of distinct ids is positive, and then equals it |
| MergeTheorems.RunFiles | ies4_consolidator.py:272-280 | the file records grow by one record per file event, in order |
| MergeTheorems.MergedFiles | ies4_consolidator.py:250-283 | `consolidatedFiles` lists exactly the files that loaded to a truthy value, in input order, and `sourceFileCount` is the number of paths given |
| MergeTheorems.DeviationsMembership | ies4_consolidator.py:394-403 | a path is recorded exactly when some loaded document at that path has an `ies4Version` other than "4.3.0" |
| MergeTheorems.DeviationsLast | ies4_consolidator.py:394-403 | the recorded value is the version of the last such document at that path |
| MergeTheorems.MergedSourceVersions | ies4_consolidator.py:394-403 | the merged metadata has `sourceVersions` exactly when some document deviates, and then holds those paths and versions |
| MergeHeader.FirstTitle | ies4_consolidator.py:383-388 | the title stays the default exactly when no document carries a title that renders to something else |
| MergeHeader.RunHeader | ies4_consolidator.py:383-392 | after any run the title is the first non-default rendered title and the description the last one met while the title was still the default |
| MergeHeader.MergedHeader | ies4_consolidator.py:241-254 | the merged `title` and `description` are those two values, or the defaults when no document supplies them |
| MergeHeader.HeaderExamples | ies4_consolidator.py:383-392 | untitled sources keep the default title, the first title wins, a later title is ignored, and a description after the first title is not copied |
| MergeSurvivor.RunSlot | ies4_consolidator.py:313-357 | the slot of one id after a merge is a small state machine run over that id's occurrences alone |
| MergeSurvivor.FirstNewestSurvives | ies4_consolidator.py:313-357 | for well-formed versions the kept copy is the first occurrence with the strictly greatest version: a stamped copy when that is the first occurrence, else a replacement recording the version it displaced, the first strictly greatest before it, which always exists |
| MergeSurvivor.SlotProvenance | ies4_consolidator.py:293-347 | whatever the versions, a held entity is a stamped or replacing copy of one of the id's occurrences, with its version recorded |
| MergeSurvivor.MergedSurvivor | ies4_consolidator.py:313-357 | in the merged list the id's only position holds the copy of its first strictly newest occurrence, recording, when that is not the first occurrence, the first strictly newest version before it, which always exists |
| MergeSurvivor.MergedProvenance | ies4_consolidator.py:293-347 | every entity of a merged list is a stamped or replacing copy of an entity met in that type, under the same id |
| MergeSurvivor.IranDroneExample | test_ies4_consolidator.py:260-282 | `iran-drone-001` at "1.0" then "2.0" ends at "2.0" named "Shahed-136 Enhanced", recording "1.0" as replaced |
| MergeExamples.IranMerge | test_ies4_consolidator.py:260-306 | the "iran" folder merges without raising into two vehicles, `iran-drone-001` at "2.0" under its new name recording "1.0" as replaced, then `iran-drone-002`; stamps "4.3.0" and "2024-12-16", tool version "2.0", three files counted, the two readable ones recorded, and `sourceVersions` holding only the "4.1.0" file |
| MergeSurvivor.SlotRunNewer | ies4_consolidator.py:312-348 | of two occurrences of an id where the second is strictly newer, the second survives, recording the first one's version |
| Validation.Filled | ies4_consolidator.py:148-152 | the filled document adds `ies4Version` and `specificationDate` only when absent and keeps every other key |
| Validation.MissingFieldsMeaning | ies4_consolidator.py:162-166 | one missing-field error per absent required field, and none when all are present |
| Validation.MissingFieldsInOrder | ies4_consolidator.py:162-166 | the missing-field errors come in the order id, type, timestamp, version |
| Validation.EntityViolationsMeaning | ies4_consolidator.py:155-184 | a non-object gives exactly one error; an object gives the missing-field, bad-id and bad-timestamp errors and nothing else; no error exactly when the entity is valid |
| Validation.ListViolationsMeaning | ies4_consolidator.py:155-184 | a list has no errors exactly when every entity in it is valid |
| Validation.TypesViolationsMeaning | ies4_consolidator.py:155-156 | the recognised types have no errors exactly when every list among them is valid |
| Validation.ComplianceMeaning | ies4_consolidator.py:135-184 | the compliance check reports nothing exactly when the document is valid |
| Validation.CheckEntity | ies4_consolidator.py:157-181 | the checks of one entity append exactly that entity's messages |
| Validation.CheckRequiredFields | ies4_consolidator.py:162-167 | the required-field loop appends one message per absent field, in the order of the required fields |
| Validation.CheckList | ies4_consolidator.py:155-183 | the loop over one list yields exactly the messages of its entities, in order |
| Validation.ValidateCompliance | ies4_consolidator.py:135-184 | the errors are the ordered messages of all violations, and the document comes back filled |
| Validation.SchemaMessages | ies4_consolidator.py:113-120 | at most one schema error, and none exactly when there is no schema, the schema is empty or the document conforms |
| Validation.ValidateStructure | ies4_consolidator.py:100-133 | the result is true exactly when there is no schema error and the document is valid |
| Validation.ReplaceTrailingZ | ies4_consolidator.py:199-201 | a trailing "Z" becomes "+00:00" before parsing |
| Validation.TankValid | test_ies4_consolidator.py:197-215 | the test tank with a "Z" timestamp is valid whenever the parser accepts the "+00:00" form |
| Validation.BareViolations | test_ies4_consolidator.py:216-226 | an entity with only an id gets the three missing-field errors for type, timestamp and version |
| Validation.OnlyVehicles | ies4_consolidator.py:155-156 | a document holding only `vehicles` is checked on that list alone |
| Validation.ComplianceExamples | test_ies4_consolidator.py:197-226 | the valid tank passes and the bare entity fails |
| Discovery.JsonMatches | ies4_consolidator.py:478-480 | the matches are names ending in ".json", and there are none exactly when no entry has such a name |
| Discovery.DiscoverNestedFolders | ies4_consolidator.py:498-524 | the loop over the rglob hits returns exactly `NestedFolders` |
| Discovery.DiscoverCountryFolders | ies4_consolidator.py:462-496 | the loop over the data directory returns exactly `CountryFolders` |
| Discovery.DiscoverChild | ies4_consolidator.py:475-494 | one child gives itself when it holds JSON files directly, else its nested folders, and nothing when it is a file |
| Discovery.FolderKey | ies4_consolidator.py:543-549 | the key contains neither "/" nor "\\" |
| Discovery.RglobMeaning | ies4_consolidator.py:508-515 | the walk yields a folder exactly when that folder, at any depth, directly holds a match |
| Discovery.CollectMeaning | ies4_consolidator.py:508-521 | the collected folders are the hit folders other than the parent, each once, all below the parent |
| Discovery.NestedMeaning | ies4_consolidator.py:498-524 | a folder is nested exactly when it lies strictly below the parent and directly holds JSON files; no folder appears twice |
| Discovery.ChildMeaning | ies4_consolidator.py:476-494 | what one child contributes, without repeats, all paths starting with the child's name |
| Discovery.CountryMeaning | ies4_consolidator.py:462-496 | a missing data directory gives nothing; otherwise a path is found exactly when some child contributes it |
| Discovery.CountryDistinct | ies4_consolidator.py:462-496 | when the children's names are distinct no folder is returned twice |
| Discovery.FolderKeyJoins | ies4_consolidator.py:543-549 | for names free of separators the key is the path joined with "_" |
| Discovery.FolderKeyExamples | test_ies4_consolidator.py:333-345 | `iran` and `uk_army`, and `uk/army` collides with a folder named `uk_army` |
| Discovery.NestedExample | test_ies4_consolidator.py:187-195 | the nested folders under `uk` are `uk/army` then `uk/navy` |
| Discovery.DiscoveryExample | test_ies4_consolidator.py:175-186 | the test tree gives `iran`, `uk/army` and `uk/navy` |
| Orchestrator.FindFolder | ies4_consolidator.py:553 | looking a folder up by name finds the first sub-folder with that name, and none means there is no such sub-folder |
| Orchestrator.EnhanceSingleFileMetadata | ies4_consolidator.py:604-653 | the method returns exactly `Enhanced`, whose meaning `EnhancedMeaning` states |
| Orchestrator.EnhancedMeaning | ies4_consolidator.py:604-653 | a shallow copy with the other fields unchanged, the two version stamps, and metadata with one file record, source count 1 and the counts of the input's non-empty lists |
| Orchestrator.EnhancedCounts | ies4_consolidator.py:641-651 | a type is counted exactly when it is a non-empty list in the input, with its length |
| Orchestrator.EnhancedWritten | ies4_consolidator.py:446-452 | filling an enhanced document changes nothing, so what is written is what was enhanced |
| Orchestrator.EnhancedValid | ies4_consolidator.py:620-651 | enhancement neither breaks nor repairs compliance |
| Orchestrator.MergedWritten | ies4_consolidator.py:446-452 | filling a merged document changes nothing |
| Orchestrator.SaveConsolidatedFile | ies4_consolidator.py:435-460 | saving succeeds exactly when the document is accepted and the write of the filled document succeeds |
| Orchestrator.ProcessFolder | ies4_consolidator.py:543-600 | one folder's outcome is exactly `FolderOutcome` |
| Orchestrator.ProcessFolders | ies4_consolidator.py:543-600 | the loop over folders builds exactly the results map of the fold |
| Orchestrator.ConsolidateByCountry | ies4_consolidator.py:526-602 | the method returns exactly `Results`, whose meaning `ResultsMeaning` states |
| Orchestrator.OverwriteKeys | ies4_consolidator.py:543-600 | a dict filled key by key has exactly the keys written |
| Orchestrator.OverwriteLast | ies4_consolidator.py:543-600 | a key of that dict holds the value written last under it |
| Orchestrator.FolderOutcomeMeaning | ies4_consolidator.py:552-600 | no files gives false; one file succeeds exactly when it loads to an object and its enhanced form is accepted and written; more files succeed exactly when the merge succeeds and its result is accepted and written |
| Orchestrator.ResultsOverKeys | ies4_consolidator.py:543-600 | the keys are exactly the keys of the folders processed |
| Orchestrator.ResultsOverLast | ies4_consolidator.py:543-600 | a key holds the outcome of the last folder with that key |
| Orchestrator.ResultsMeaning | ies4_consolidator.py:526-602 | the result keys are those of the discovered folders, each holding the outcome of the last folder with that key |
| Orchestrator.ReachesResolves | ies4_consolidator.py:508-515 | a folder the walk reaches can be looked up again by its path and directly holds JSON files |
| Orchestrator.DiscoveredHaveFiles | ies4_consolidator.py:475-494 | for a tree with distinct names, every discovered folder globs at least one file, so the zero-file branch is never taken for it |
| Orchestrator.ArmyExample | test_ies4_consolidator.py:308-324 | the army document at "4.2.0" is stamped "4.3.0", keeps its title and vehicles, and counts one vehicle and one vehicle type |

## Left out

- Logging and `generate_summary_report` are not modelled. The report only formats text and writes a file.
- `run_consolidation.py` is not part of this model. It is command-line plumbing.
- The tests are not modelled. Their expected outcomes appear as the example lemmas.
- Real I/O is not modelled: `open`, `json.load`, `json.dump`, `stat`, `mkdir` and the directory listing. Loading, sizes and writing come from `Env`, and the tree is a value.
- `_load_schema` is not modelled. The schema is an optional input.
- `jsonschema.validate` is not modelled. It becomes a function parameter that returns conformance or one error.
- `datetime.fromisoformat` is not modelled. It becomes a predicate parameter.
- `datetime.now` is not modelled. The merge time and the enhancement time are parameters, and the orchestrator takes one from `Env.now` per folder.
- Floating-point numbers are not modelled: JSON numbers are integers.
- Dictionary key order is not modelled: objects are maps.
- Python's equal hashing of `True` and `1` is not modelled: ids of different JSON kinds are distinct.
- The text of a list or dict title (Python's `repr`) is not modelled. The title is replaced by a fixed placeholder string.
- `Versions.CompareJson`: comparing two list versions, which Python's list comparison would allow, is modelled as raising.
- `Versions.ParseSegments`: `int()` forms with signs, spaces, underscores or non-ASCII decimal digits (Arabic-Indic or fullwidth digits, for instance) are not modelled. Such segments go to the string fallback, so `"١.٠"` against `"1.0"` compares unequal in the model but equal in the program.
- Windows path separators, symbolic links, case-insensitive globbing and the exact directory-listing order are not modelled. Entries come in the order the tree lists them.
- The order in which newer Python versions yield `rglob` results is not modelled; the walk is preorder.
- A `data` path that exists but is not a directory is not modelled.
- An exception while scanning nested folders is not modelled. That would return a partial list.
- Validation does not modify the document in place; the filled document is returned instead.
- `MergeSurvivor.FirstNewestSurvives`: the survivor is stated only for well-formed dotted versions, because the string fallback is not an order (`Versions.MixedVersionsCycle`); for any versions `MergeSurvivor.MergedProvenance` still holds.
- `MergeSurvivor.MergedSurvivor`: the same restriction to well-formed dotted versions, carried into the merge-level statement by its `WellVersioned` requirement; `MergeSurvivor.MergedProvenance` covers every version.
- `Orchestrator.FolderOutcomeMeaning`: every exception inside a folder counts as a false result, as the code's handler does; the logged message is not modelled.
- `Orchestrator.DiscoveredHaveFiles`: stated for trees whose folder names are distinct within each folder, as they are on a real file system.
