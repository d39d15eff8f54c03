/**
 * `consolidate_by_country` and what it calls per folder: the single-file
 * enhancement (`_enhance_single_file_metadata`), the merge, and
 * `_save_consolidated_file`. Everything the source reads from the outside
 * world comes in through an `Env`.
 */
module Orchestrator {
  import opened PyJson
  import opened MergeSpec
  import opened MergeTheorems
  import opened MergeEngine
  import opened Validation
  import opened Discovery

  /**
   * The outside world of one run: what `_load_json_file` and `stat()` give
   * for a path relative to the data directory, the loaded schema with the
   * external validator, the `datetime.fromisoformat` check, whether
   * `json.dump` into an output file name succeeds, and the clock reading
   * (`datetime.now().isoformat()`) taken while processing folder number i.
   */
  datatype Env = Env(
    load: string -> LoadOutcome,
    size: string -> nat,
    schema: Option<Json>,
    validate: (Doc, Json) -> SchemaOutcome,
    fromIso: string -> bool,
    write: (string, Doc) -> bool,
    now: nat -> string)

  // ---------------------------------------------------------------------
  // Looking folders up again
  // ---------------------------------------------------------------------

  /** The first sub-folder of `entries` called `name`. */
  function FindFolder(entries: seq<Entry>, name: string): (r: Option<nat>)
    ensures r.Some? ==> r.value < |entries| && entries[r.value].Folder? && entries[r.value].name == name
    ensures r.Some? ==> forall i :: 0 <= i < r.value ==> !(entries[i].Folder? && entries[i].name == name)
    ensures r.None? ==> forall i :: 0 <= i < |entries| ==> !(entries[i].Folder? && entries[i].name == name)
    decreases |entries|
  {
    if entries == [] then None
    else if entries[0].Folder? && entries[0].name == name then Some(0)
    else
      match FindFolder(entries[1..], name)
      case None => None
      case Some(i) => Some(i + 1)
  }

  /** The folder at the relative path `p` under `entries`. */
  function ResolveIn(entries: seq<Entry>, p: Path): (r: Option<Entry>)
    ensures r.Some? ==> p != [] && r.value.Folder? && r.value.name == p[|p| - 1]
    decreases |p|
  {
    if p == [] then None
    else
      match FindFolder(entries, p[0])
      case None => None
      case Some(i) => if |p| == 1 then Some(entries[i]) else ResolveIn(entries[i].entries, p[1..])
  }

  /** `list(folder.glob("*.json"))` for the folder at `p`: nothing when there is no such folder. */
  function Glob(data: DataDir, p: Path): seq<string> {
    if data.Missing? then []
    else
      match ResolveIn(data.entries, p)
      case None => []
      case Some(d) => JsonMatches(d.entries)
  }

  /** One `*.json` path of the folder at `p`, as the merge and the enhancement see it. */
  function Source(env: Env, p: Path, name: string): SourceFile {
    var path := Join(p + [name]);
    SourceFile(path, env.size(path), env.load(path))
  }

  function Sources(env: Env, p: Path, names: seq<string>): (r: seq<SourceFile>)
    ensures |r| == |names|
    ensures forall k :: 0 <= k < |names| ==> r[k] == Source(env, p, names[k])
  {
    seq(|names|, k requires 0 <= k < |names| => Source(env, p, names[k]))
  }

  // ---------------------------------------------------------------------
  // _enhance_single_file_metadata
  // ---------------------------------------------------------------------

  function SingleFileMetadata(path: string, size: nat, ts: string, counts: map<string, Json>): Json {
    JObj(map[
      "timestamp" := JStr(ts),
      "consolidatedFiles" := JArr([FileRecord(path, size, ts)]),
      "sourceFileCount" := JNum(1),
      "consolidationTool" := JStr(ToolName),
      "toolVersion" := JStr(ToolVersion),
      "entityCounts" := JObj(counts)])
  }

  /**
   * The enhanced copy of a loaded document: the version stamps and a
   * consolidation block written over a shallow copy, the counts taken from
   * the copy. None stands for the exception `data.copy()` or the item
   * assignment raises when the document is not an object.
   */
  function Enhanced(data: Json, path: string, size: nat, ts: string): Option<Doc> {
    if !data.JObj? then None
    else
      var stamped := data.fields
        ["ies4Version" := JStr(Ies4Version)]
        ["specificationDate" := JStr(SpecificationDate)]
        ["consolidationMetadata" := SingleFileMetadata(path, size, ts, map[])];
      Some(stamped["consolidationMetadata" := SingleFileMetadata(path, size, ts, EntityCounts(stamped))])
  }

  method EnhanceSingleFileMetadata(data: Json, path: string, size: nat, ts: string) returns (enhanced: Option<Doc>)
    ensures enhanced == Enhanced(data, path, size, ts)
  {
    if !data.JObj? {
      return None;
    }
    var copy := data.fields;
    copy := copy["ies4Version" := JStr(Ies4Version)];
    copy := copy["specificationDate" := JStr(SpecificationDate)];
    copy := copy["consolidationMetadata" := SingleFileMetadata(path, size, ts, map[])];
    var counts := CountEntities(copy);
    copy := copy["consolidationMetadata" := SingleFileMetadata(path, size, ts, counts)];
    enhanced := Some(copy);
  }

  // ---------------------------------------------------------------------
  // _save_consolidated_file
  // ---------------------------------------------------------------------

  /** `_validate_json_structure(data)` under the run's schema and timestamp check. */
  predicate Accepted(data: Doc, env: Env) {
    SchemaMessages(data, env.schema, env.validate) == [] && DocumentValid(data, env.fromIso)
  }

  /**
   * `_save_consolidated_file(data, output_file)`: false when validation
   * fails, otherwise whether writing the validated document (with its
   * version fields filled in) succeeds.
   */
  predicate Saved(data: Doc, outputFile: string, env: Env) {
    Accepted(data, env) && env.write(outputFile, Filled(data))
  }

  method SaveConsolidatedFile(data: Doc, outputFile: string, env: Env) returns (ok: bool)
    ensures ok == Saved(data, outputFile, env)
  {
    var valid, filled := ValidateStructure(data, env.schema, env.validate, env.fromIso);
    if !valid {
      return false;
    }
    ok := env.write(outputFile, filled);
  }

  // ---------------------------------------------------------------------
  // consolidate_by_country
  // ---------------------------------------------------------------------

  function OutputName(key: string): string {
    "ies4_" + key + "_consolidated.json"
  }

  /**
   * The result recorded for the folder at `p`, processed at time `ts`: no
   * file fails; a single file is enhanced and saved when it loads to a
   * truthy object; several files are merged and saved. Any exception on
   * the way gives false.
   */
  function FolderOutcome(data: DataDir, p: Path, env: Env, ts: string): bool {
    var names := Glob(data, p);
    var out := OutputName(FolderKey(p));
    if |names| == 0 then false
    else if |names| == 1 then
      var src := Source(env, p, names[0]);
      if !Contributes(src) then false
      else
        match Enhanced(src.load.doc, src.path, src.size, ts)
        case None => false
        case Some(doc) => Saved(doc, out, env)
    else
      match Merge(Sources(env, p, names), ts)
      case None => false
      case Some(doc) => Saved(doc, out, env)
  }

  /** A dict filled by writing `vals[j]` under `keys[j]` for `j < k`, in order, later keys overwriting. */
  function Overwrite<V>(keys: seq<string>, vals: seq<V>, k: nat): map<string, V>
    requires k <= |keys| && k <= |vals|
  {
    if k == 0 then map[]
    else Overwrite(keys, vals, k - 1)[keys[k - 1] := vals[k - 1]]
  }

  function FolderKeys(folders: seq<Path>): (r: seq<string>)
    ensures |r| == |folders| && forall i :: 0 <= i < |folders| ==> r[i] == FolderKey(folders[i])
  {
    seq(|folders|, i requires 0 <= i < |folders| => FolderKey(folders[i]))
  }

  /** The outcome of each folder, the `j`-th processed at the `j`-th reading of the clock. */
  function Outcomes(data: DataDir, folders: seq<Path>, env: Env): (r: seq<bool>)
    ensures |r| == |folders|
  {
    seq(|folders|, j requires 0 <= j < |folders| => FolderOutcome(data, folders[j], env, env.now(j)))
  }

  /** The results dict after the first `k` folders: each folder's key set to its outcome, later keys overwriting. */
  function ResultsOver(data: DataDir, folders: seq<Path>, env: Env, k: nat): map<string, bool>
    requires k <= |folders|
  {
    Overwrite(FolderKeys(folders), Outcomes(data, folders, env), k)
  }

  function Results(data: DataDir, env: Env): map<string, bool> {
    var folders := CountryFolders(data);
    ResultsOver(data, folders, env, |folders|)
  }

  method ConsolidateByCountry(data: DataDir, env: Env) returns (results: map<string, bool>)
    ensures results == Results(data, env)
  {
    var countryFolders := DiscoverCountryFolders(data);
    if |countryFolders| == 0 {
      return map[];
    }
    results := ProcessFolders(data, countryFolders, env);
  }

  /** The loop over the discovered folders, filling the results dict. */
  method ProcessFolders(data: DataDir, folders: seq<Path>, env: Env) returns (results: map<string, bool>)
    ensures results == ResultsOver(data, folders, env, |folders|)
  {
    results := map[];
    for k := 0 to |folders|
      invariant results == ResultsOver(data, folders, env, k)
    {
      var folder := folders[k];
      var key := FolderKey(folder);
      var ok := ProcessFolder(data, folder, key, env, env.now(k));
      ResultsStep(data, folders, env, k, ok);
      results := results[key := ok];
    }
  }

  /** The body of the folder loop, with the exceptions it catches mapped to false. */
  method ProcessFolder(data: DataDir, folder: Path, key: string, env: Env, ts: string) returns (ok: bool)
    requires key == FolderKey(folder)
    ensures ok == FolderOutcome(data, folder, env, ts)
  {
    var jsonFiles := Glob(data, folder);
    if |jsonFiles| == 0 {
      return false;
    }
    var outputFile := OutputName(key);
    if |jsonFiles| == 1 {
      var sourceFile := Source(env, folder, jsonFiles[0]);
      var loaded := sourceFile.load;
      if loaded.Loaded? && Truthy(loaded.doc) {
        var enhanced := EnhanceSingleFileMetadata(loaded.doc, sourceFile.path, sourceFile.size, ts);
        if enhanced.None? {
          return false;
        }
        ok := SaveConsolidatedFile(enhanced.value, outputFile, env);
      } else {
        ok := false;
      }
    } else {
      var merged := MergeJsonFiles(Sources(env, folder, jsonFiles), ts);
      if merged.None? {
        return false;
      }
      ok := SaveConsolidatedFile(merged.value, outputFile, env);
    }
  }

  lemma ResultsStep(data: DataDir, folders: seq<Path>, env: Env, k: nat, ok: bool)
    requires k < |folders| && ok == FolderOutcome(data, folders[k], env, env.now(k))
    ensures ResultsOver(data, folders, env, k + 1) == ResultsOver(data, folders, env, k)[FolderKey(folders[k]) := ok]
  {
  }

  // ---------------------------------------------------------------------
  // What the enhancement produces
  // ---------------------------------------------------------------------

  /** The keys the enhancement writes are not entity collections. */
  lemma StampKeysNotCollections()
    ensures "ies4Version" !in EntityTypes && "specificationDate" !in EntityTypes
    ensures "consolidationMetadata" !in EntityTypes
  {
  }

  /** Documents that agree on the collections `ts` have the same counts over them. */
  lemma {:induction false} CountsOverAgree(a: Doc, b: Doc, ts: seq<string>)
    requires forall t :: t in ts ==> (t in a <==> t in b) && (t in a ==> a[t] == b[t])
    ensures CountsOver(a, ts) == CountsOver(b, ts)
    decreases |ts|
  {
    if ts != [] {
      CountsOverAgree(a, b, ts[..|ts| - 1]);
    }
  }

  /**
   * The enhanced document is the loaded object with `ies4Version` and
   * `specificationDate` overwritten by this version's stamps and a
   * consolidation block for one file whose counts are those of the loaded
   * object; every other field, the entity lists included, is the loaded one.
   */
  lemma EnhancedMeaning(data: Json, path: string, size: nat, ts: string)
    requires data.JObj?
    ensures Enhanced(data, path, size, ts).Some?
    ensures var r, m := Enhanced(data, path, size, ts).value, data.fields;
      && r.Keys == m.Keys + {"ies4Version", "specificationDate", "consolidationMetadata"}
      && (forall k :: k in m && k != "ies4Version" && k != "specificationDate" && k != "consolidationMetadata" ==> r[k] == m[k])
      && r["ies4Version"] == JStr(Ies4Version)
      && r["specificationDate"] == JStr(SpecificationDate)
      && r["consolidationMetadata"] == SingleFileMetadata(path, size, ts, EntityCounts(m))
  {
    var m := data.fields;
    var stamped := m
      ["ies4Version" := JStr(Ies4Version)]
      ["specificationDate" := JStr(SpecificationDate)]
      ["consolidationMetadata" := SingleFileMetadata(path, size, ts, map[])];
    StampKeysNotCollections();
    CountsOverAgree(stamped, m, EntityTypes);
  }

  /** `entityCounts` of an enhanced document: one entry per non-empty recognised list of the loaded object. */
  lemma EnhancedCounts(data: Json, path: string, size: nat, ts: string, t: string)
    requires data.JObj?
    ensures var counts := EntityCounts(data.fields);
      && (t in counts <==> t in EntityTypes && t in data.fields && data.fields[t].JArr? && |data.fields[t].items| > 0)
      && (t in counts ==> counts[t] == JNum(|data.fields[t].items|))
  {
    EntityCountsMeaning(data.fields, t);
  }

  /** Validation leaves an enhanced document as it is: the file written is the enhanced document. */
  lemma EnhancedWritten(data: Json, path: string, size: nat, ts: string)
    requires data.JObj?
    ensures Filled(Enhanced(data, path, size, ts).value) == Enhanced(data, path, size, ts).value
  {
    EnhancedMeaning(data, path, size, ts);
  }

  /** An enhanced document passes the entity checks exactly when the loaded object does. */
  lemma EnhancedValid(data: Json, path: string, size: nat, ts: string, fromIso: string -> bool)
    requires data.JObj?
    ensures DocumentValid(Enhanced(data, path, size, ts).value, fromIso) <==> DocumentValid(data.fields, fromIso)
  {
    EnhancedMeaning(data, path, size, ts);
    StampKeysNotCollections();
  }

  /** Validation leaves a merged document as it is: the file written is the merged document. */
  lemma MergedWritten(srcs: seq<SourceFile>, ts: string)
    requires Merge(srcs, ts).Some?
    ensures Filled(Merge(srcs, ts).value) == Merge(srcs, ts).value
  {
    var st := MergedState(srcs, ts).value;
    var doc := Merge(srcs, ts).value;
    assert doc == Assemble(st, |srcs|, ts, EntityCounts(Collections(st)));
    assert "ies4Version" in doc && "specificationDate" in doc;
  }

  // ---------------------------------------------------------------------
  // What each folder records
  // ---------------------------------------------------------------------

  /**
   * A folder without files records false; a folder with one file records
   * whether that file loaded to a truthy object whose enhanced copy passed
   * validation and was written; a folder with several files records whether
   * the merge completed and the merged document passed validation and was
   * written.
   */
  lemma FolderOutcomeMeaning(data: DataDir, p: Path, env: Env, ts: string)
    ensures var names, out := Glob(data, p), OutputName(FolderKey(p));
      && (|names| == 0 ==> !FolderOutcome(data, p, env, ts))
      && (|names| == 1 ==>
            var src := Source(env, p, names[0]);
            (FolderOutcome(data, p, env, ts) <==>
               && Contributes(src) && src.load.doc.JObj?
               && Accepted(Enhanced(src.load.doc, src.path, src.size, ts).value, env)
               && env.write(out, Enhanced(src.load.doc, src.path, src.size, ts).value)))
      && (|names| > 1 ==>
            var merged := Merge(Sources(env, p, names), ts);
            (FolderOutcome(data, p, env, ts) <==>
               merged.Some? && Accepted(merged.value, env) && env.write(out, merged.value)))
  {
    var names := Glob(data, p);
    if |names| == 1 {
      var src := Source(env, p, names[0]);
      if Contributes(src) && src.load.doc.JObj? {
        EnhancedWritten(src.load.doc, src.path, src.size, ts);
      }
    } else if |names| > 1 {
      var merged := Merge(Sources(env, p, names), ts);
      if merged.Some? {
        MergedWritten(Sources(env, p, names), ts);
      }
    }
  }

  // ---------------------------------------------------------------------
  // The results dict
  // ---------------------------------------------------------------------

  lemma {:induction false} OverwriteKeys<V>(keys: seq<string>, vals: seq<V>, k: nat, key: string)
    requires k <= |keys| && k <= |vals|
    ensures key in Overwrite(keys, vals, k) <==> exists i :: 0 <= i < k && keys[i] == key
  {
    if k > 0 {
      OverwriteKeys(keys, vals, k - 1, key);
    }
  }

  lemma {:induction false} OverwriteLast<V>(keys: seq<string>, vals: seq<V>, k: nat, i: nat)
    requires i < k <= |keys| && k <= |vals|
    requires forall j :: i < j < k ==> keys[j] != keys[i]
    ensures keys[i] in Overwrite(keys, vals, k) && Overwrite(keys, vals, k)[keys[i]] == vals[i]
  {
    if k > i + 1 {
      OverwriteLast(keys, vals, k - 1, i);
    }
  }

  lemma ResultsOverKeys(data: DataDir, folders: seq<Path>, env: Env, k: nat, key: string)
    requires k <= |folders|
    ensures key in ResultsOver(data, folders, env, k) <==> exists i :: 0 <= i < k && FolderKey(folders[i]) == key
  {
    OverwriteKeys(FolderKeys(folders), Outcomes(data, folders, env), k, key);
  }

  lemma ResultsOverLast(data: DataDir, folders: seq<Path>, env: Env, k: nat, i: nat)
    requires i < k <= |folders|
    requires forall j :: i < j < k ==> FolderKey(folders[j]) != FolderKey(folders[i])
    ensures FolderKey(folders[i]) in ResultsOver(data, folders, env, k)
    ensures ResultsOver(data, folders, env, k)[FolderKey(folders[i])] == FolderOutcome(data, folders[i], env, env.now(i))
  {
    var keys, vals := FolderKeys(folders), Outcomes(data, folders, env);
    OverwriteLast(keys, vals, k, i);
    assert vals[i] == FolderOutcome(data, folders[i], env, env.now(i));
  }

  /**
   * The results dict has a key for each discovered folder and no other;
   * a key holds the outcome of the last discovered folder with that key,
   * so one folder's failure leaves the other folders' entries alone.
   */
  lemma ResultsMeaning(data: DataDir, env: Env, key: string)
    ensures var folders := CountryFolders(data);
      && (key in Results(data, env) <==> exists i :: 0 <= i < |folders| && FolderKey(folders[i]) == key)
      && (forall i :: 0 <= i < |folders| && FolderKey(folders[i]) == key
            && (forall j :: i < j < |folders| ==> FolderKey(folders[j]) != key)
            ==> Results(data, env)[key] == FolderOutcome(data, folders[i], env, env.now(i)))
  {
    var folders := CountryFolders(data);
    ResultsOverKeys(data, folders, env, |folders|, key);
    forall i | 0 <= i < |folders| && FolderKey(folders[i]) == key
        && (forall j :: i < j < |folders| ==> FolderKey(folders[j]) != key)
      ensures Results(data, env)[key] == FolderOutcome(data, folders[i], env, env.now(i))
    {
      ResultsOverLast(data, folders, env, |folders|, i);
    }
  }

  // ---------------------------------------------------------------------
  // Discovered folders are found again
  // ---------------------------------------------------------------------

  /** Names are distinct within every folder of the tree, as on a real file system. */
  predicate WellNamed(d: Entry)
    decreases d
  {
    d.Folder? ==> DistinctNames(d.entries) && forall i :: 0 <= i < |d.entries| ==> WellNamed(d.entries[i])
  }

  lemma FindFolderDistinct(entries: seq<Entry>, i: nat)
    requires i < |entries| && entries[i].Folder? && DistinctNames(entries)
    ensures FindFolder(entries, entries[i].name) == Some(i)
  {
  }

  /**
   * A folder reached below `d` is found again by looking its path up from
   * `d`, and it directly holds a match.
   */
  lemma {:induction false} ReachesResolves(d: Entry, here: Path, p: Path)
    requires d.Folder? && WellNamed(d) && Reaches(d, here, p)
    ensures here <= p
    ensures p == here ==> |JsonMatches(d.entries)| > 0
    ensures p != here ==>
      var r := ResolveIn(d.entries, p[|here|..]);
      r.Some? && |JsonMatches(r.value.entries)| > 0
    decreases d
  {
    if p != here || |JsonMatches(d.entries)| == 0 {
      var i :| 0 <= i < |d.entries| && d.entries[i].Folder? && Reaches(d.entries[i], here + [d.entries[i].name], p);
      var e := d.entries[i];
      var below := here + [e.name];
      assert WellNamed(e) && DistinctNames(d.entries);
      ReachesResolves(e, below, p);
      var rest := p[|here|..];
      assert |below| == |here| + 1 && rest[0] == p[|here|] == below[|here|] == e.name;
      ResolveThrough(d.entries, i, rest);
      if p != below {
        assert rest[1..] == p[|below|..];
      } else {
        assert |rest| == 1;
      }
    }
  }

  /** Resolving a path whose first name is that of folder `i`, when names are distinct. */
  lemma ResolveThrough(entries: seq<Entry>, i: nat, rest: Path)
    requires i < |entries| && entries[i].Folder? && DistinctNames(entries)
    requires rest != [] && rest[0] == entries[i].name
    ensures ResolveIn(entries, rest) == if |rest| == 1 then Some(entries[i]) else ResolveIn(entries[i].entries, rest[1..])
  {
    FindFolderDistinct(entries, i);
  }

  /**
   * When names are distinct within each folder, every discovered folder is
   * found again by `consolidate_by_country` and holds at least one `*.json`
   * entry, so the no-file branch is never taken for it.
   */
  lemma DiscoveredHaveFiles(data: DataDir, p: Path)
    requires data.Present? ==> WellNamed(Folder("data", data.entries))
    requires p in CountryFolders(data)
    ensures |Glob(data, p)| > 0
  {
    CountryMeaning(data, p);
    var i :| 0 <= i < |data.entries| && ChildHolds(data.entries[i], p);
    var e := data.entries[i];
    assert WellNamed(e);
    FindFolderDistinct(data.entries, i);
    if |JsonMatches(e.entries)| == 0 {
      ReachesResolves(e, [e.name], p);
      assert p[1..] == p[|[e.name]|..];
    }
  }

  // ---------------------------------------------------------------------
  // The single-file folder the unit tests build
  // ---------------------------------------------------------------------

  /**
   * The `uk/army` file, stamped "4.2.0" with one vehicle and one vehicle
   * type, comes out stamped "4.3.0" with a one-file consolidation block
   * counting one of each.
   */
  lemma ArmyExample(tank: Json, vehicleType: Json, size: nat, ts: string)
    ensures var army := JObj(map[
        "title" := JStr("UK Army Database"), "ies4Version" := JStr("4.2.0"),
        "vehicles" := JArr([tank]), "vehicleTypes" := JArr([vehicleType])]);
      var r := Enhanced(army, "uk/army/army_data.json", size, ts);
      && r.Some?
      && r.value["ies4Version"] == JStr("4.3.0")
      && r.value["title"] == JStr("UK Army Database")
      && r.value["vehicles"] == JArr([tank])
      && r.value["consolidationMetadata"] == SingleFileMetadata("uk/army/army_data.json", size, ts,
           map["vehicles" := JNum(1), "vehicleTypes" := JNum(1)])
  {
    var m := map[
        "title" := JStr("UK Army Database"), "ies4Version" := JStr("4.2.0"),
        "vehicles" := JArr([tank]), "vehicleTypes" := JArr([vehicleType])];
    var path := "uk/army/army_data.json";
    EnhancedMeaning(JObj(m), path, size, ts);
    ArmyCounts(m, tank, vehicleType);
    var r := Enhanced(JObj(m), path, size, ts).value;
    assert "title" in m && "title" != "ies4Version" && "title" != "specificationDate" && "title" != "consolidationMetadata";
    assert "vehicles" in m && "vehicles" != "ies4Version" && "vehicles" != "specificationDate" && "vehicles" != "consolidationMetadata";
    assert r["title"] == m["title"] && r["vehicles"] == m["vehicles"];
  }

  lemma ArmyCounts(m: Doc, tank: Json, vehicleType: Json)
    requires m == map[
        "title" := JStr("UK Army Database"), "ies4Version" := JStr("4.2.0"),
        "vehicles" := JArr([tank]), "vehicleTypes" := JArr([vehicleType])]
    ensures EntityCounts(m) == map["vehicles" := JNum(1), "vehicleTypes" := JNum(1)]
  {
    var counts := EntityCounts(m);
    assert EntityTypes[2] == "vehicles" && EntityTypes[3] == "vehicleTypes";
    forall t
      ensures t in counts <==> t == "vehicles" || t == "vehicleTypes"
      ensures t in counts ==> counts[t] == JNum(1)
    {
      EntityCountsMeaning(m, t);
    }
  }
}
