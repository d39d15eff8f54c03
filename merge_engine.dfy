/**
 * `_merge_json_files` as the source runs it: one merge context whose fields
 * the loop updates in place, file by file, collection by collection and
 * entity by entity. Each step is proved to be one step of the fold in
 * MergeSpec, and the whole loop to compute `MergeSpec.Merge`.
 */
module MergeEngine {
  import opened PyJson
  import opened Versions
  import opened MergeSpec
  import opened MergeProps

  /**
   * The merged document under construction (title, description, the
   * `consolidatedFiles` and `sourceVersions` blocks and the entity
   * collections) together with the `entity_versions` tracker.
   */
  class MergeContext {
    const timestamp: string
    var title: string
    var description: Json
    var consolidatedFiles: seq<Json>
    var sourceVersions: map<string, Json>
    var collections: map<string, seq<Json>>
    var entityVersions: map<string, map<Json, Json>>

    function State(): MergeState
      reads this
    {
      MergeState(title, description, consolidatedFiles, sourceVersions, collections, entityVersions)
    }

    ghost predicate Valid()
      reads this
    {
      Inv(State())
    }

    /** The initial merged dict: header fields and one empty list per collection. */
    constructor (ts: string)
      ensures timestamp == ts && State() == Init(ts) && Valid()
    {
      timestamp := ts;
      title := DefaultTitle;
      description := JStr("Consolidated database created on " + ts);
      consolidatedFiles := [];
      sourceVersions := map[];
      entityVersions := map[];
      var lists: map<string, seq<Json>> := map[];
      for k := 0 to |EntityTypes|
        invariant lists == map t | t in EntityTypes[..k] :: []
      {
        assert EntityTypes[..k + 1] == EntityTypes[..k] + [EntityTypes[k]];
        lists := lists[EntityTypes[k] := []];
      }
      assert EntityTypes[..|EntityTypes|] == EntityTypes;
      collections := lists;
      InitInv(ts);
    }

    /** Appends the file record of a loaded source. */
    method RecordFile(path: string, size: nat)
      requires Valid()
      modifies this
      ensures Valid()
      ensures Apply(old(State()), FileEv(path, size), timestamp) == Some(State())
    {
      consolidatedFiles := consolidatedFiles + [FileRecord(path, size, timestamp)];
    }

    /** `_preserve_source_metadata`; false when it raises. */
    method PreserveSourceMetadata(doc: Json, path: string) returns (ok: bool)
      requires Valid()
      modifies this
      ensures Valid()
      ensures if ok then Apply(old(State()), MetaEv(doc, path), timestamp) == Some(State())
              else Apply(old(State()), MetaEv(doc, path), timestamp).None?
    {
      if title == DefaultTitle {
        var hasTitle := PyIn("title", doc);
        if hasTitle.None? {
          return false;
        }
        if hasTitle.value {
          if !doc.JObj? {
            return false;
          }
          title := "Consolidated " + TitleText(doc.fields["title"]);
        }
        if PyIn("description", doc) == Some(true) {
          if !doc.JObj? {
            return false;
          }
          description := doc.fields["description"];
        }
      }
      var hasVersion := PyIn("ies4Version", doc);
      if hasVersion.None? {
        return false;
      }
      if hasVersion.value {
        if !doc.JObj? {
          return false;
        }
        if doc.fields["ies4Version"] != JStr(Ies4Version) {
          sourceVersions := sourceVersions[path := doc.fields["ies4Version"]];
        }
      }
      ok := true;
    }

    /** One entity of collection `t`; false when the source raises on it. */
    method AddEntity(t: string, e: Json, path: string) returns (ok: bool)
      requires Valid() && t in EntityTypes
      modifies this
      ensures Valid()
      ensures if ok then Apply(old(State()), EntityEv(t, e, path), timestamp) == Some(State())
              else Apply(old(State()), EntityEv(t, e, path), timestamp).None?
    {
      if !(e.JObj? && "id" in e.fields) {
        return true;
      }
      var id := e.fields["id"];
      if !Hashable(id) {
        return false;
      }
      var items := if t in collections then collections[t] else [];
      var known := if t in entityVersions then entityVersions[t] else map[];
      if id !in known {
        ghost var st := State();
        InsertKeepsInv(st, t, Stamp(e, path, timestamp), id, VersionOf(e));
        MergeEntityInserts(st, t, e, path, timestamp, id);
        SetCollection(t, items + [Stamp(e, path, timestamp)], known[id := VersionOf(e)]);
        return true;
      }
      var existingVersion := known[id];
      var newVersion := VersionOf(e);
      var c := CompareJson(newVersion, existingVersion);
      if c.None? {
        return false;
      }
      var i := |items|;
      if c.value > 0 {
        i := FindEntity(items, id);
      }
      if c.value > 0 && i < |items| {
        ghost var st := State();
        ReplaceKeepsInv(st, t, Replaced(e, path, timestamp, existingVersion), id, newVersion);
        MergeEntityReplaces(st, t, e, path, timestamp, id);
        SetCollection(t, items[i := Replaced(e, path, timestamp, existingVersion)], known[id := newVersion]);
      } else {
        MergeEntitySkips(State(), t, e, path, timestamp, id);
      }
      ok := true;
    }

    /** Stores collection `t` and its version map. */
    method SetCollection(t: string, items: seq<Json>, known: map<Json, Json>)
      modifies this
      ensures State() == old(State()).(lists := old(State()).lists[t := items], versions := old(State()).versions[t := known])
    {
      collections := collections[t := items];
      entityVersions := entityVersions[t := known];
    }
  }

  /**
   * The `enumerate` scan for the stored entity with a given id: the first
   * position holding it, or the length when no entity does.
   */
  method FindEntity(items: seq<Json>, id: Json) returns (i: nat)
    requires forall k :: 0 <= k < |items| ==> items[k].JObj? && "id" in items[k].fields
    ensures i == IndexOfId(items, id)
  {
    i := 0;
    while i < |items|
      invariant 0 <= i <= |items|
      invariant forall k :: 0 <= k < i ==> IdOf(items[k]) != Some(id)
    {
      if items[i].fields["id"] == id {
        IndexOfIdIs(items, id, i);
        return;
      }
      i := i + 1;
    }
  }

  /** The `entityCounts` loop: every recognised collection that is a non-empty list. */
  method CountEntities(doc: Doc) returns (counts: map<string, Json>)
    ensures counts == EntityCounts(doc)
  {
    counts := map[];
    for k := 0 to |EntityTypes|
      invariant counts == CountsOver(doc, EntityTypes[..k])
    {
      var t := EntityTypes[k];
      assert EntityTypes[..k + 1][..k] == EntityTypes[..k];
      if t in doc && doc[t].JArr? {
        var count := |doc[t].items|;
        if count > 0 {
          counts := counts[t := JNum(count)];
        }
      }
    }
    assert EntityTypes[..|EntityTypes|] == EntityTypes;
  }

  /**
   * `_merge_json_files`: the folder's files in order, each loaded document's
   * metadata and entities folded into one merge context; None when the
   * source raises part-way.
   */
  method MergeJsonFiles(sources: seq<SourceFile>, ts: string) returns (merged: Option<Doc>)
    ensures merged == Merge(sources, ts)
  {
    var ctx := new MergeContext(ts);
    for i := 0 to |sources|
      invariant ctx.Valid() && ctx.timestamp == ts
      invariant MergedState(sources[..i], ts) == Some(ctx.State())
    {
      var src := sources[i];
      assert sources[..i + 1] == sources[..i] + [src];
      EventsSnoc(sources[..i], src);
      if src.load.Loaded? && Truthy(src.load.doc) {
        var ok := MergeSource(ctx, sources, i);
        if !ok {
          return None;
        }
      } else {
        assert Events(sources[..i]) + DocEvents(src) == Events(sources[..i]);
      }
    }
    assert sources[..|sources|] == sources;
    var counts := CountEntities(Collections(ctx.State()));
    merged := Some(Assemble(ctx.State(), |sources|, ts, counts));
  }

  /** The body of the file loop for one loaded, truthy document. */
  method MergeSource(ctx: MergeContext, sources: seq<SourceFile>, i: nat) returns (ok: bool)
    requires i < |sources| && Contributes(sources[i])
    requires ctx.Valid() && MergedState(sources[..i], ctx.timestamp) == Some(ctx.State())
    modifies ctx
    ensures ctx.Valid()
    ensures ok ==> Run(Init(ctx.timestamp), Events(sources[..i]) + DocEvents(sources[i]), ctx.timestamp) == Some(ctx.State())
    ensures !ok ==> Merge(sources, ctx.timestamp).None?
  {
    var src := sources[i];
    var doc, path, ts := src.load.doc, src.path, ctx.timestamp;
    ghost var done := Events(sources[..i]);
    TypePrefixEnds(sources, i);
    ctx.RecordFile(path, src.size);
    RunSnoc(Init(ts), done, FileEv(path, src.size), ts);
    ok := ctx.PreserveSourceMetadata(doc, path);
    RunSnoc(Init(ts), done + [FileEv(path, src.size)], MetaEv(doc, path), ts);
    if !ok {
      MetaAbort(sources, i, ts);
      return;
    }
    for k := 0 to |EntityTypes|
      invariant ctx.Valid() && ctx.timestamp == ts
      invariant Run(Init(ts), TypePrefix(sources, i, k), ts) == Some(ctx.State())
    {
      ok := MergeCollection(ctx, sources, i, k);
      if !ok {
        return;
      }
    }
  }

  /** One pass of the collection loop: the lookup of collection `k` and its entities. */
  method MergeCollection(ctx: MergeContext, sources: seq<SourceFile>, i: nat, k: nat) returns (ok: bool)
    requires i < |sources| && Contributes(sources[i]) && k < |EntityTypes|
    requires ctx.Valid() && Run(Init(ctx.timestamp), TypePrefix(sources, i, k), ctx.timestamp) == Some(ctx.State())
    modifies ctx
    ensures ctx.Valid()
    ensures ok ==> Run(Init(ctx.timestamp), TypePrefix(sources, i, k + 1), ctx.timestamp) == Some(ctx.State())
    ensures !ok ==> Merge(sources, ctx.timestamp).None?
  {
    var src := sources[i];
    var doc, path, ts, t := src.load.doc, src.path, ctx.timestamp, EntityTypes[k];
    TypePrefixStep(sources, i, k);
    var hasList := PyIn(t, doc);
    if hasList.None? || (hasList.value && !doc.JObj?) {
      assert ListAt(doc, t) == Raises;
      RunSnoc(Init(ts), TypePrefix(sources, i, k), RaiseEv, ts);
      ListAbort(sources, i, k, ts);
      return false;
    }
    if hasList.value && doc.fields[t].JArr? {
      var xs := doc.fields[t].items;
      assert ListAt(doc, t) == Items(xs);
      ok := MergeItems(ctx, sources, i, k, xs);
    } else {
      assert ListAt(doc, t) == Absent;
      assert TypePrefix(sources, i, k + 1) == TypePrefix(sources, i, k);
      ok := true;
    }
  }

  /** The entity loop over one collection of one document. */
  method MergeItems(ctx: MergeContext, sources: seq<SourceFile>, i: nat, k: nat, xs: seq<Json>) returns (ok: bool)
    requires i < |sources| && Contributes(sources[i]) && k < |EntityTypes|
    requires ListAt(sources[i].load.doc, EntityTypes[k]) == Items(xs)
    requires ctx.Valid() && Run(Init(ctx.timestamp), TypePrefix(sources, i, k), ctx.timestamp) == Some(ctx.State())
    modifies ctx
    ensures ctx.Valid()
    ensures ok ==> Run(Init(ctx.timestamp), TypePrefix(sources, i, k) + EntityEvents(EntityTypes[k], xs, sources[i].path), ctx.timestamp) == Some(ctx.State())
    ensures !ok ==> Merge(sources, ctx.timestamp).None?
  {
    var src := sources[i];
    var doc, path, ts, t := src.load.doc, src.path, ctx.timestamp, EntityTypes[k];
    ghost var before := TypePrefix(sources, i, k);
    assert before + EntityEvents(t, xs[..0], path) == before by {
      assert xs[..0] == [];
    }
    for j := 0 to |xs|
      invariant ctx.Valid() && ctx.timestamp == ts
      invariant Run(Init(ts), before + EntityEvents(t, xs[..j], path), ts) == Some(ctx.State())
    {
      EntityEventsStep(t, xs, j, path);
      assert before + EntityEvents(t, xs[..j + 1], path) == before + EntityEvents(t, xs[..j], path) + [EntityEv(t, xs[j], path)];
      RunSnoc(Init(ts), before + EntityEvents(t, xs[..j], path), EntityEv(t, xs[j], path), ts);
      ok := ctx.AddEntity(t, xs[j], path);
      if !ok {
        EntityAbort(sources, i, k, xs, j, ts);
        return;
      }
    }
    assert xs[..|xs|] == xs;
    ok := true;
  }
}
