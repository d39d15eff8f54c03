/**
 * What `_merge_json_files` (with `_preserve_source_metadata`) computes, as a
 * specification: the files of one folder are read in order, each loaded
 * document produces a flat list of events in the order the merge loop meets
 * them (its file record, its metadata, then each entity of each recognised
 * collection), and the merge state is a left fold of one step per event.
 * A step that raises in the source gives None, which ends the fold.
 */
module MergeSpec {
  import opened PyJson
  import opened Versions

  const Ies4Version: string := "4.3.0"
  const SpecificationDate: string := "2024-12-16"
  const DefaultTitle: string := "Consolidated IES4 Military Database"
  const SchemaUri: string := "http://json-schema.org/draft-07/schema#"
  const ToolName: string := "IES4Consolidator"
  const ToolVersion: string := "2.0"
  const DefaultVersion: string := "1.0"

  /** The recognised entity collections, in the order the merge visits them. */
  const EntityTypes: seq<string> := [
    "countries", "areas", "vehicles", "vehicleTypes", "peopleTypes", "people",
    "representations", "organizations", "events", "activities", "facilities",
    "items", "locations", "relationships"
  ]

  /** What `_load_json_file` returned for one path: a parsed value, or None after an error. */
  datatype LoadOutcome = Loaded(doc: Json) | Failed

  /** One `*.json` path of a folder: its path relative to the data directory, its size, its load. */
  datatype SourceFile = SourceFile(path: string, size: nat, load: LoadOutcome)

  /** `if not data: continue` lets the file through. */
  predicate Contributes(src: SourceFile) {
    src.load.Loaded? && Truthy(src.load.doc)
  }

  /** The outcome of `entity_type in data and isinstance(data[entity_type], list)`. */
  datatype Lookup = Absent | Items(items: seq<Json>) | Raises

  function ListAt(doc: Json, t: string): Lookup {
    match doc
    case JObj(m) => if t in m && m[t].JArr? then Items(m[t].items) else Absent
    case _ =>
      // `data[entity_type]` on a list or a string raises TypeError, and so
      // does `entity_type in data` on a number or a boolean
      match PyIn(t, doc)
      case None => Raises
      case Some(found) => if found then Raises else Absent
  }

  datatype Event =
    | FileEv(path: string, size: nat)
    | MetaEv(doc: Json, path: string)
    | EntityEv(entityType: string, entity: Json, path: string)
    | RaiseEv

  function EntityEvents(t: string, xs: seq<Json>, p: string): seq<Event>
    decreases |xs|
  {
    if xs == [] then [] else EntityEvents(t, xs[..|xs| - 1], p) + [EntityEv(t, xs[|xs| - 1], p)]
  }

  function ListEvents(doc: Json, t: string, p: string): seq<Event> {
    match ListAt(doc, t)
    case Absent => []
    case Raises => [RaiseEv]
    case Items(xs) => EntityEvents(t, xs, p)
  }

  function TypeEvents(doc: Json, ts: seq<string>, p: string): seq<Event>
    decreases |ts|
  {
    if ts == [] then [] else TypeEvents(doc, ts[..|ts| - 1], p) + ListEvents(doc, ts[|ts| - 1], p)
  }

  function DocEvents(src: SourceFile): seq<Event> {
    if Contributes(src) then
      [FileEv(src.path, src.size), MetaEv(src.load.doc, src.path)]
        + TypeEvents(src.load.doc, EntityTypes, src.path)
    else []
  }

  function Events(srcs: seq<SourceFile>): seq<Event>
    decreases |srcs|
  {
    if srcs == [] then [] else Events(srcs[..|srcs| - 1]) + DocEvents(srcs[|srcs| - 1])
  }

  /**
   * The merge state: the output title and description, the
   * `consolidatedFiles` records, the `sourceVersions` map (written to the
   * output only once non-empty), the entity collections, and the
   * `entity_versions` map per collection, whose keys are `entity_tracker`.
   */
  datatype MergeState = MergeState(
    title: string,
    description: Json,
    files: seq<Json>,
    sourceVersions: map<string, Json>,
    lists: map<string, seq<Json>>,
    versions: map<string, map<Json, Json>>)

  function Init(ts: string): MergeState {
    MergeState(
      DefaultTitle,
      JStr("Consolidated database created on " + ts),
      [],
      map[],
      map t | t in EntityTypes :: [],
      map[])
  }

  function ListFor(st: MergeState, t: string): seq<Json> {
    if t in st.lists then st.lists[t] else []
  }

  /** `entity_versions[t]`, a defaultdict: empty until first written. */
  function VersionsFor(st: MergeState, t: string): map<Json, Json> {
    if t in st.versions then st.versions[t] else map[]
  }

  function FileRecord(p: string, size: nat, ts: string): Json {
    JObj(map["path" := JStr(p), "size" := JNum(size), "processedAt" := JStr(ts)])
  }

  /**
   * `str()` of a title value inside the f-string. Strings, None, booleans
   * and integers are written as Python writes them; lists and dicts get a
   * placeholder (their Python repr is not modelled).
   */
  function TitleText(j: Json): string {
    match j
    case JStr(s) => s
    case JNull => "None"
    case JBool(b) => if b then "True" else "False"
    case JNum(n) => IntToString(n)
    case JArr(_) => "[...]"
    case JObj(_) => "{...}"
  }

  /**
   * Title and description are copied from a source while the output title is
   * still the default one; `.get` and `[]` on a document that is not a dict
   * raise.
   */
  function CopyTitle(st: MergeState, doc: Json): Option<MergeState> {
    if st.title != DefaultTitle then Some(st)
    else
      var hasTitle :- PyIn("title", doc);
      var hasDescription := PyIn("description", doc) == Some(true);
      if !doc.JObj? then
        if hasTitle || hasDescription then None else Some(st)
      else
        var st1 := if hasTitle then st.(title := "Consolidated " + TitleText(doc.fields["title"])) else st;
        Some(if hasDescription then st1.(description := doc.fields["description"]) else st1)
  }

  /** A source whose `ies4Version` differs from the tool's is recorded under its path. */
  function RecordSourceVersion(st: MergeState, doc: Json, p: string): Option<MergeState> {
    var hasVersion :- PyIn("ies4Version", doc);
    if !hasVersion then Some(st)
    else if !doc.JObj? then None
    else if doc.fields["ies4Version"] == JStr(Ies4Version) then Some(st)
    else Some(st.(sourceVersions := st.sourceVersions[p := doc.fields["ies4Version"]]))
  }

  function PreserveSourceMetadata(st: MergeState, doc: Json, p: string): Option<MergeState> {
    var st1 :- CopyTitle(st, doc);
    RecordSourceVersion(st1, doc, p)
  }

  /** The id an entity is tracked under: any dict with an "id" key has one. */
  function IdOf(e: Json): Option<Json> {
    if e.JObj? && "id" in e.fields then Some(e.fields["id"]) else None
  }

  /** `entity.get("version", "1.0")`. */
  function VersionOf(e: Json): Json {
    if e.JObj? && "version" in e.fields then e.fields["version"] else JStr(DefaultVersion)
  }

  /** The position of the first stored entity with this id, or the length when there is none. */
  function IndexOfId(items: seq<Json>, id: Json): (i: nat)
    ensures i <= |items|
    ensures i < |items| ==> IdOf(items[i]) == Some(id)
    ensures forall k :: 0 <= k < i ==> IdOf(items[k]) != Some(id)
    decreases |items|
  {
    if items == [] then 0
    else if IdOf(items[0]) == Some(id) then 0
    else 1 + IndexOfId(items[1..], id)
  }

  /**
   * The copy stored when an id is first met: the source's fields, the two
   * provenance fields, and `timestamp` and `version` defaulted when absent.
   */
  function Stamp(e: Json, p: string, ts: string): (r: Json)
    requires e.JObj?
    ensures r.JObj?
    ensures r.fields.Keys == e.fields.Keys + {"_sourceFiles", "_consolidatedAt", "timestamp", "version"}
    ensures r.fields["_sourceFiles"] == JArr([JStr(p)]) && r.fields["_consolidatedAt"] == JStr(ts)
    ensures r.fields["timestamp"] == if "timestamp" in e.fields then e.fields["timestamp"] else JStr(ts)
    ensures r.fields["version"] == VersionOf(e)
    ensures forall k :: k in e.fields && k != "_sourceFiles" && k != "_consolidatedAt" ==> r.fields[k] == e.fields[k]
    ensures IdOf(r) == IdOf(e)
  {
    var m := e.fields["_sourceFiles" := JArr([JStr(p)])]["_consolidatedAt" := JStr(ts)];
    var m1 := if "timestamp" in m then m else m["timestamp" := JStr(ts)];
    var m2 := if "version" in m1 then m1 else m1["version" := JStr(DefaultVersion)];
    JObj(m2)
  }

  /**
   * The copy stored when a strictly newer version replaces an entity: the
   * source's fields, the two provenance fields and the superseded version;
   * no defaults are filled in.
   */
  function Replaced(e: Json, p: string, ts: string, previous: Json): (r: Json)
    requires e.JObj?
    ensures r.JObj?
    ensures r.fields.Keys == e.fields.Keys + {"_sourceFiles", "_consolidatedAt", "_replacedVersion"}
    ensures r.fields["_sourceFiles"] == JArr([JStr(p)]) && r.fields["_consolidatedAt"] == JStr(ts)
    ensures r.fields["_replacedVersion"] == previous
    ensures forall k :: k in e.fields && k != "_sourceFiles" && k != "_consolidatedAt" && k != "_replacedVersion"
                ==> r.fields[k] == e.fields[k]
    ensures IdOf(r) == IdOf(e)
  {
    JObj(e.fields["_sourceFiles" := JArr([JStr(p)])]["_consolidatedAt" := JStr(ts)]["_replacedVersion" := previous])
  }

  /**
   * One entity of collection `t` from the source at `p`: dropped without an
   * "id" key; a TypeError for an unhashable id, or for versions the fallback
   * comparison cannot order; appended when its id is new; replacing the
   * stored entity in place when strictly newer; skipped otherwise.
   */
  function MergeEntity(st: MergeState, t: string, e: Json, p: string, ts: string): Option<MergeState> {
    match IdOf(e)
    case None => Some(st)
    case Some(id) =>
      if !Hashable(id) then None
      else
        var items := ListFor(st, t);
        var known := VersionsFor(st, t);
        if id !in known then
          Some(st.(lists := st.lists[t := items + [Stamp(e, p, ts)]],
                   versions := st.versions[t := known[id := VersionOf(e)]]))
        else
          var c :- CompareJson(VersionOf(e), known[id]);
          if c <= 0 then Some(st)
          else
            var i := IndexOfId(items, id);
            if i == |items| then Some(st)
            else
              Some(st.(lists := st.lists[t := items[i := Replaced(e, p, ts, known[id])]],
                       versions := st.versions[t := known[id := VersionOf(e)]]))
  }

  function Apply(st: MergeState, ev: Event, ts: string): Option<MergeState> {
    match ev
    case FileEv(p, size) => Some(st.(files := st.files + [FileRecord(p, size, ts)]))
    case MetaEv(doc, p) => PreserveSourceMetadata(st, doc, p)
    case EntityEv(t, e, p) => MergeEntity(st, t, e, p, ts)
    case RaiseEv => None
  }

  function Run(st: MergeState, evs: seq<Event>, ts: string): Option<MergeState>
    decreases |evs|
  {
    if evs == [] then Some(st)
    else
      match Run(st, evs[..|evs| - 1], ts)
      case None => None
      case Some(st1) => Apply(st1, evs[|evs| - 1], ts)
  }

  /** The state after the whole folder, None when the merge raised. */
  function MergedState(srcs: seq<SourceFile>, ts: string): Option<MergeState> {
    Run(Init(ts), Events(srcs), ts)
  }

  /** Counts over the collections `ts` that are non-empty lists, in that order. */
  function CountsOver(doc: Doc, ts: seq<string>): map<string, Json>
    decreases |ts|
  {
    if ts == [] then map[]
    else
      var counts := CountsOver(doc, ts[..|ts| - 1]);
      var t := ts[|ts| - 1];
      if t in doc && doc[t].JArr? && |doc[t].items| > 0 then counts[t := JNum(|doc[t].items|)] else counts
  }

  /** The `entityCounts` block: one count per non-empty recognised list. */
  function EntityCounts(doc: Doc): map<string, Json> {
    CountsOver(doc, EntityTypes)
  }

  function Collections(st: MergeState): Doc {
    map t | t in EntityTypes :: JArr(ListFor(st, t))
  }

  function MergeMetadata(st: MergeState, sourceFileCount: nat, ts: string, counts: map<string, Json>): Json {
    var meta := map[
      "timestamp" := JStr(ts),
      "consolidatedFiles" := JArr(st.files),
      "sourceFileCount" := JNum(sourceFileCount),
      "consolidationTool" := JStr(ToolName),
      "toolVersion" := JStr(ToolVersion),
      "entityCounts" := JObj(counts)];
    JObj(if st.sourceVersions == map[] then meta else meta["sourceVersions" := JObj(st.sourceVersions)])
  }

  /** The output document assembled from a final state and its entity counts. */
  function Assemble(st: MergeState, sourceFileCount: nat, ts: string, counts: map<string, Json>): Doc {
    Collections(st)
      ["$schema" := JStr(SchemaUri)]
      ["title" := JStr(st.title)]
      ["description" := st.description]
      ["ies4Version" := JStr(Ies4Version)]
      ["specificationDate" := JStr(SpecificationDate)]
      ["consolidationMetadata" := MergeMetadata(st, sourceFileCount, ts, counts)]
  }

  /** `_merge_json_files(json_files)` with the merge timestamp `ts`; None when it raises. */
  function Merge(srcs: seq<SourceFile>, ts: string): Option<Doc> {
    match MergedState(srcs, ts)
    case None => None
    case Some(st) => Some(Assemble(st, |srcs|, ts, EntityCounts(Collections(st))))
  }
}
