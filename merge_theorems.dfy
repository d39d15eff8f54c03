/**
 * What the merged document of a folder contains, stated over the source
 * documents rather than over the fold: the ids in each collection, the
 * entity counts, the file records and the recorded source versions.
 */
module MergeTheorems {
  import opened PyJson
  import opened Versions
  import opened MergeSpec
  import opened MergeProps

  /** An entity met by the merge, with the path of the file it came from. */
  datatype Occurrence = Occurrence(entity: Json, path: string)

  // ---------------------------------------------------------------------
  // The entities of one collection
  // ---------------------------------------------------------------------

  /** The entity events of collection `t`, in order. */
  function EntitiesOf(evs: seq<Event>, t: string): seq<Occurrence>
    decreases |evs|
  {
    if evs == [] then []
    else
      var ev := evs[|evs| - 1];
      EntitiesOf(evs[..|evs| - 1], t)
        + (if ev.EntityEv? && ev.entityType == t then [Occurrence(ev.entity, ev.path)] else [])
  }

  function Tagged(xs: seq<Json>, p: string): seq<Occurrence>
    decreases |xs|
  {
    if xs == [] then [] else Tagged(xs[..|xs| - 1], p) + [Occurrence(xs[|xs| - 1], p)]
  }

  function ListEntities(doc: Json, t: string, p: string): seq<Occurrence> {
    match ListAt(doc, t)
    case Items(xs) => Tagged(xs, p)
    case _ => []
  }

  /** The entities of collection `t` in the loaded documents, in merge order. */
  function SourceEntities(srcs: seq<SourceFile>, t: string): seq<Occurrence>
    decreases |srcs|
  {
    if srcs == [] then []
    else
      var src := srcs[|srcs| - 1];
      SourceEntities(srcs[..|srcs| - 1], t)
        + (if Contributes(src) then ListEntities(src.load.doc, t, src.path) else [])
  }

  lemma {:induction false} EntitiesOfAppend(a: seq<Event>, b: seq<Event>, t: string)
    ensures EntitiesOf(a + b, t) == EntitiesOf(a, t) + EntitiesOf(b, t)
    decreases |b|
  {
    if b == [] {
      assert a + b == a;
    } else {
      var b0 := b[..|b| - 1];
      assert (a + b)[..|a + b| - 1] == a + b0;
      assert (a + b)[|a + b| - 1] == b[|b| - 1];
      EntitiesOfAppend(a, b0, t);
    }
  }

  lemma EntitiesOfSingle(ev: Event, t: string)
    ensures EntitiesOf([ev], t) ==
      if ev.EntityEv? && ev.entityType == t then [Occurrence(ev.entity, ev.path)] else []
  {
    assert [ev][..0] == [];
  }

  lemma {:induction false} EntitiesOfEntityEvents(u: string, xs: seq<Json>, p: string, t: string)
    ensures EntitiesOf(EntityEvents(u, xs, p), t) == if u == t then Tagged(xs, p) else []
    decreases |xs|
  {
    if xs != [] {
      var x0 := xs[..|xs| - 1];
      EntitiesOfEntityEvents(u, x0, p, t);
      EntitiesOfAppend(EntityEvents(u, x0, p), [EntityEv(u, xs[|xs| - 1], p)], t);
      EntitiesOfSingle(EntityEv(u, xs[|xs| - 1], p), t);
    }
  }

  lemma EntitiesOfListEvents(doc: Json, u: string, p: string, t: string)
    ensures EntitiesOf(ListEvents(doc, u, p), t) == if u == t then ListEntities(doc, t, p) else []
  {
    match ListAt(doc, u) {
      case Items(xs) => EntitiesOfEntityEvents(u, xs, p, t);
      case Raises => EntitiesOfSingle(RaiseEv, t);
      case Absent =>
    }
  }

  predicate Distinct<X(==)>(s: seq<X>) {
    forall i, j :: 0 <= i < j < |s| ==> s[i] != s[j]
  }

  lemma {:induction false} EntitiesOfTypeEvents(doc: Json, ts: seq<string>, p: string, t: string)
    requires Distinct(ts)
    ensures EntitiesOf(TypeEvents(doc, ts, p), t) == if t in ts then ListEntities(doc, t, p) else []
    decreases |ts|
  {
    if ts != [] {
      var t0, u := ts[..|ts| - 1], ts[|ts| - 1];
      DistinctSnoc(ts);
      EntitiesOfTypeEvents(doc, t0, p, t);
      TypeEventsSnoc(doc, t0, u, p);
      EntitiesOfAppend(TypeEvents(doc, t0, p), ListEvents(doc, u, p), t);
      EntitiesOfListEvents(doc, u, p, t);
    }
  }

  lemma DistinctSnoc<X>(s: seq<X>)
    requires Distinct(s) && s != []
    ensures s == s[..|s| - 1] + [s[|s| - 1]]
    ensures Distinct(s[..|s| - 1]) && s[|s| - 1] !in s[..|s| - 1]
  {
    var pre := s[..|s| - 1];
    assert forall k :: 0 <= k < |pre| ==> pre[k] == s[k];
  }

  lemma EntityTypesDistinct()
    ensures Distinct(EntityTypes)
  {
  }

  lemma EntitiesOfDocEvents(src: SourceFile, t: string)
    requires t in EntityTypes
    ensures EntitiesOf(DocEvents(src), t) ==
      if Contributes(src) then ListEntities(src.load.doc, t, src.path) else []
  {
    if Contributes(src) {
      var head := [FileEv(src.path, src.size), MetaEv(src.load.doc, src.path)];
      EntitiesOfAppend(head, TypeEvents(src.load.doc, EntityTypes, src.path), t);
      EntityTypesDistinct();
      EntitiesOfTypeEvents(src.load.doc, EntityTypes, src.path, t);
      assert EntitiesOf(head, t) == [] by {
        assert head == [head[0]] + [head[1]];
        EntitiesOfAppend([head[0]], [head[1]], t);
        EntitiesOfSingle(head[0], t);
        EntitiesOfSingle(head[1], t);
      }
    }
  }

  /** The entity events of collection `t` are the entities of its lists in the loaded documents. */
  lemma {:induction false} EntitiesOfEvents(srcs: seq<SourceFile>, t: string)
    requires t in EntityTypes
    ensures EntitiesOf(Events(srcs), t) == SourceEntities(srcs, t)
    decreases |srcs|
  {
    if srcs != [] {
      var s0 := srcs[..|srcs| - 1];
      EntitiesOfEvents(s0, t);
      EntitiesOfAppend(Events(s0), DocEvents(srcs[|srcs| - 1]), t);
      EntitiesOfDocEvents(srcs[|srcs| - 1], t);
    }
  }

  // ---------------------------------------------------------------------
  // Ids in order of first appearance
  // ---------------------------------------------------------------------

  /** The ids of the occurrences, each once, in the order they are first met. */
  function FirstSeen(occ: seq<Occurrence>): seq<Json>
    decreases |occ|
  {
    if occ == [] then []
    else
      var ids := FirstSeen(occ[..|occ| - 1]);
      match IdOf(occ[|occ| - 1].entity)
      case None => ids
      case Some(id) => if id in ids then ids else ids + [id]
  }

  lemma {:induction false} FirstSeenDistinct(occ: seq<Occurrence>)
    ensures Distinct(FirstSeen(occ))
    decreases |occ|
  {
    if occ != [] {
      FirstSeenDistinct(occ[..|occ| - 1]);
    }
  }

  lemma {:induction false} FirstSeenMembers(occ: seq<Occurrence>, id: Json)
    ensures id in FirstSeen(occ) <==> exists k :: 0 <= k < |occ| && IdOf(occ[k].entity) == Some(id)
    decreases |occ|
  {
    if occ != [] {
      var o0 := occ[..|occ| - 1];
      FirstSeenMembers(o0, id);
      if exists k :: 0 <= k < |o0| && IdOf(o0[k].entity) == Some(id) {
        var k :| 0 <= k < |o0| && IdOf(o0[k].entity) == Some(id);
        assert occ[k] == o0[k];
      }
      if exists k :: 0 <= k < |occ| && IdOf(occ[k].entity) == Some(id) {
        var k :| 0 <= k < |occ| && IdOf(occ[k].entity) == Some(id);
        if k < |o0| {
          assert o0[k] == occ[k];
        }
      }
    }
  }

  /** The ids of stored entities, in list order. */
  function IdList(items: seq<Json>): seq<Json>
    decreases |items|
  {
    if items == [] then []
    else
      IdList(items[..|items| - 1])
        + match IdOf(items[|items| - 1]) case Some(id) => [id] case None => []
  }

  lemma IdListSnoc(items: seq<Json>, x: Json)
    ensures IdList(items + [x]) == IdList(items) + match IdOf(x) case Some(id) => [id] case None => []
  {
    assert (items + [x])[..|items|] == items;
  }

  lemma {:induction false} IdListSameIds(a: seq<Json>, b: seq<Json>)
    requires |a| == |b|
    requires forall k :: 0 <= k < |a| ==> IdOf(a[k]) == IdOf(b[k])
    ensures IdList(a) == IdList(b)
    decreases |a|
  {
    if a != [] {
      IdListSameIds(a[..|a| - 1], b[..|b| - 1]);
    }
  }

  lemma {:induction false} IdListLength(items: seq<Json>)
    requires forall k :: 0 <= k < |items| ==> IdOf(items[k]).Some?
    ensures |IdList(items)| == |items|
    ensures forall k :: 0 <= k < |items| ==> IdList(items)[k] == IdOf(items[k]).value
    decreases |items|
  {
    if items != [] {
      IdListLength(items[..|items| - 1]);
    }
  }

  /** Events other than an entity of collection `t` leave that collection and its versions alone. */
  lemma OtherEventKeepsCollection(sm: MergeState, ev: Event, ts: string, t: string)
    requires Apply(sm, ev, ts).Some? && !(ev.EntityEv? && ev.entityType == t)
    ensures ListFor(Apply(sm, ev, ts).value, t) == ListFor(sm, t)
    ensures VersionsFor(Apply(sm, ev, ts).value, t) == VersionsFor(sm, t)
  {
    match ev {
      case FileEv(_, _) =>
      case RaiseEv =>
      case MetaEv(doc, p) =>
        MetaKeepsCollections(sm, doc, p);
      case EntityEv(u, e, p) =>
        OtherEntityKeepsCollection(sm, u, e, p, ts, t);
    }
  }

  lemma OtherEntityKeepsCollection(sm: MergeState, u: string, e: Json, p: string, ts: string, t: string)
    requires MergeEntity(sm, u, e, p, ts).Some? && u != t
    ensures ListFor(MergeEntity(sm, u, e, p, ts).value, t) == ListFor(sm, t)
    ensures VersionsFor(MergeEntity(sm, u, e, p, ts).value, t) == VersionsFor(sm, t)
  {
    var st := MergeEntity(sm, u, e, p, ts).value;
    assert t in st.lists <==> t in sm.lists;
    assert t in st.versions <==> t in sm.versions;
  }

  lemma InsertIds(items: seq<Json>, known: map<Json, Json>, x: Json, id: Json, v: Json, seen: seq<Occurrence>, o: Occurrence)
    requires IdList(items) == FirstSeen(seen)
    requires forall j :: j in known <==> j in FirstSeen(seen)
    requires id !in known && IdOf(x) == Some(id) && IdOf(o.entity) == Some(id)
    ensures IdList(items + [x]) == FirstSeen(seen + [o])
    ensures forall j :: j in known[id := v] <==> j in FirstSeen(seen + [o])
  {
    IdListSnoc(items, x);
    assert (seen + [o])[..|seen|] == seen;
  }

  lemma KeepIds(items: seq<Json>, items': seq<Json>, known: map<Json, Json>, known': map<Json, Json>, id: Json,
                seen: seq<Occurrence>, o: Occurrence)
    requires IdList(items) == FirstSeen(seen)
    requires forall j :: j in known <==> j in FirstSeen(seen)
    requires |items'| == |items| && forall k :: 0 <= k < |items| ==> IdOf(items'[k]) == IdOf(items[k])
    requires id in known && known'.Keys == known.Keys && IdOf(o.entity) == Some(id)
    ensures IdList(items') == FirstSeen(seen + [o])
    ensures forall j :: j in known' <==> j in FirstSeen(seen + [o])
  {
    IdListSameIds(items', items);
    assert (seen + [o])[..|seen|] == seen;
  }

  /** The step of the id projection: one entity of collection `t`. */
  lemma MergeEntityIds(sm: MergeState, t: string, e: Json, p: string, ts: string, seen: seq<Occurrence>)
    requires MergeEntity(sm, t, e, p, ts).Some?
    requires IdList(ListFor(sm, t)) == FirstSeen(seen)
    requires forall id :: id in VersionsFor(sm, t) <==> id in FirstSeen(seen)
    ensures var st := MergeEntity(sm, t, e, p, ts).value;
      && IdList(ListFor(st, t)) == FirstSeen(seen + [Occurrence(e, p)])
      && (forall id :: id in VersionsFor(st, t) <==> id in FirstSeen(seen + [Occurrence(e, p)]))
  {
    var st := MergeEntity(sm, t, e, p, ts).value;
    var o := Occurrence(e, p);
    assert (seen + [o])[..|seen|] == seen;
    var items, known := ListFor(sm, t), VersionsFor(sm, t);
    match IdOf(e) {
      case None =>
      case Some(id) =>
        assert Hashable(id);
        if id !in known {
          MergeEntityInserts(sm, t, e, p, ts, id);
          InsertIds(items, known, Stamp(e, p, ts), id, VersionOf(e), seen, o);
        } else if CompareJson(VersionOf(e), known[id]).value > 0 && IndexOfId(items, id) < |items| {
          var i := IndexOfId(items, id);
          MergeEntityReplaces(sm, t, e, p, ts, id);
          KeepIds(items, items[i := Replaced(e, p, ts, known[id])], known, known[id := VersionOf(e)], id, seen, o);
        } else {
          MergeEntitySkips(sm, t, e, p, ts, id);
          KeepIds(items, items, known, known, id, seen, o);
        }
    }
  }

  /** The step of the id projection: one event of the merge. */
  lemma ApplyIds(sm: MergeState, ev: Event, ts: string, t: string, seen: seq<Occurrence>)
    requires t in EntityTypes && Apply(sm, ev, ts).Some?
    requires IdList(ListFor(sm, t)) == FirstSeen(seen)
    requires forall id :: id in VersionsFor(sm, t) <==> id in FirstSeen(seen)
    ensures var st := Apply(sm, ev, ts).value;
      var seen' := seen + if ev.EntityEv? && ev.entityType == t then [Occurrence(ev.entity, ev.path)] else [];
      && IdList(ListFor(st, t)) == FirstSeen(seen')
      && (forall id :: id in VersionsFor(st, t) <==> id in FirstSeen(seen'))
  {
    if ev.EntityEv? && ev.entityType == t {
      MergeEntityIds(sm, t, ev.entity, ev.path, ts, seen);
    } else {
      OtherEventKeepsCollection(sm, ev, ts, t);
      assert seen + [] == seen;
    }
  }

  /** From the start of a merge: a collection holds the ids met so far, in order of first appearance. */
  lemma {:induction false} RunIds(evs: seq<Event>, ts: string, t: string)
    requires t in EntityTypes && Run(Init(ts), evs, ts).Some?
    ensures IdList(ListFor(Run(Init(ts), evs, ts).value, t)) == FirstSeen(EntitiesOf(evs, t))
    ensures forall id :: id in VersionsFor(Run(Init(ts), evs, ts).value, t) <==> id in FirstSeen(EntitiesOf(evs, t))
    decreases |evs|
  {
    if evs != [] {
      var pre, ev := evs[..|evs| - 1], evs[|evs| - 1];
      RunIds(pre, ts, t);
      ApplyIds(Run(Init(ts), pre, ts).value, ev, ts, t, EntitiesOf(pre, t));
    }
  }

  // ---------------------------------------------------------------------
  // Entity counts
  // ---------------------------------------------------------------------

  lemma {:induction false} CountsOverMeaning(doc: Doc, ts: seq<string>, t: string)
    ensures t in CountsOver(doc, ts) <==> t in ts && t in doc && doc[t].JArr? && |doc[t].items| > 0
    ensures t in CountsOver(doc, ts) ==> CountsOver(doc, ts)[t] == JNum(|doc[t].items|)
    decreases |ts|
  {
    if ts != [] {
      CountsOverMeaning(doc, ts[..|ts| - 1], t);
      assert ts == ts[..|ts| - 1] + [ts[|ts| - 1]];
    }
  }

  /** `entityCounts` has an entry exactly for each recognised non-empty list, holding its length. */
  lemma EntityCountsMeaning(doc: Doc, t: string)
    ensures t in EntityCounts(doc) <==> t in EntityTypes && t in doc && doc[t].JArr? && |doc[t].items| > 0
    ensures t in EntityCounts(doc) ==> EntityCounts(doc)[t] == JNum(|doc[t].items|)
  {
    CountsOverMeaning(doc, EntityTypes, t);
  }

  // ---------------------------------------------------------------------
  // The merged document
  // ---------------------------------------------------------------------

  lemma AssembleParts(st: MergeState, n: nat, ts: string, counts: map<string, Json>, t: string)
    requires t in EntityTypes
    ensures t in Assemble(st, n, ts, counts) && Assemble(st, n, ts, counts)[t] == JArr(ListFor(st, t))
    ensures "consolidationMetadata" in Assemble(st, n, ts, counts)
    ensures Assemble(st, n, ts, counts)["consolidationMetadata"] == MergeMetadata(st, n, ts, counts)
  {
  }

  /**
   * Each collection of the merged document holds one entity per id met in
   * that collection of the loaded documents, in order of first appearance,
   * so no id appears twice; `entityCounts` holds its length exactly when
   * it is non-empty.
   */
  lemma MergedCollection(srcs: seq<SourceFile>, ts: string, t: string)
    requires Merge(srcs, ts).Some? && t in EntityTypes
    ensures var doc := Merge(srcs, ts).value;
      && t in doc && doc[t].JArr?
      && IdList(doc[t].items) == FirstSeen(SourceEntities(srcs, t))
      && |doc[t].items| == |FirstSeen(SourceEntities(srcs, t))|
      && (forall k :: 0 <= k < |doc[t].items| ==> IdOf(doc[t].items[k]).Some?)
      && Distinct(IdList(doc[t].items))
  {
    var st := MergedState(srcs, ts).value;
    var doc := Merge(srcs, ts).value;
    AssembleParts(st, |srcs|, ts, EntityCounts(Collections(st)), t);
    RunIds(Events(srcs), ts, t);
    EntitiesOfEvents(srcs, t);
    InitInv(ts);
    RunKeepsInv(Init(ts), Events(srcs), ts);
    IdListLength(ListFor(st, t));
    FirstSeenDistinct(SourceEntities(srcs, t));
  }

  lemma MergedCounts(srcs: seq<SourceFile>, ts: string, t: string)
    requires Merge(srcs, ts).Some? && t in EntityTypes
    ensures var doc := Merge(srcs, ts).value;
      var meta := doc["consolidationMetadata"];
      var n := |FirstSeen(SourceEntities(srcs, t))|;
      && meta.JObj? && "entityCounts" in meta.fields && meta.fields["entityCounts"].JObj?
      && (t in meta.fields["entityCounts"].fields <==> n > 0)
      && (n > 0 ==> meta.fields["entityCounts"].fields[t] == JNum(n))
  {
    var st := MergedState(srcs, ts).value;
    var counts := EntityCounts(Collections(st));
    AssembleParts(st, |srcs|, ts, counts, t);
    MergedCollection(srcs, ts, t);
    EntityCountsMeaning(Collections(st), t);
  }

  // ---------------------------------------------------------------------
  // File records and document metadata
  // ---------------------------------------------------------------------

  /** A loaded document whose metadata the merge preserves, with its path. */
  datatype MetaSource = MetaSource(doc: Json, path: string)

  /** The records of the file events, in order. */
  function FilesOf(evs: seq<Event>, ts: string): seq<Json>
    decreases |evs|
  {
    if evs == [] then []
    else
      var ev := evs[|evs| - 1];
      FilesOf(evs[..|evs| - 1], ts) + (if ev.FileEv? then [FileRecord(ev.path, ev.size, ts)] else [])
  }

  /** The documents of the metadata events, in order. */
  function MetasOf(evs: seq<Event>): seq<MetaSource>
    decreases |evs|
  {
    if evs == [] then []
    else
      var ev := evs[|evs| - 1];
      MetasOf(evs[..|evs| - 1]) + (if ev.MetaEv? then [MetaSource(ev.doc, ev.path)] else [])
  }

  /** The file records of the sources that load to a truthy value, in input order. */
  function LoadedFiles(srcs: seq<SourceFile>, ts: string): seq<Json>
    decreases |srcs|
  {
    if srcs == [] then []
    else
      var src := srcs[|srcs| - 1];
      LoadedFiles(srcs[..|srcs| - 1], ts) + (if Contributes(src) then [FileRecord(src.path, src.size, ts)] else [])
  }

  /** The documents of the sources that load to a truthy value, in input order. */
  function LoadedMetas(srcs: seq<SourceFile>): seq<MetaSource>
    decreases |srcs|
  {
    if srcs == [] then []
    else
      var src := srcs[|srcs| - 1];
      LoadedMetas(srcs[..|srcs| - 1]) + (if Contributes(src) then [MetaSource(src.load.doc, src.path)] else [])
  }

  predicate EntityOnly(evs: seq<Event>) {
    forall k :: 0 <= k < |evs| ==> evs[k].EntityEv? || evs[k].RaiseEv?
  }

  lemma {:induction false} EntityEventsOnly(t: string, xs: seq<Json>, p: string)
    ensures EntityOnly(EntityEvents(t, xs, p))
    decreases |xs|
  {
    if xs != [] {
      EntityEventsOnly(t, xs[..|xs| - 1], p);
    }
  }

  lemma {:induction false} TypeEventsOnly(doc: Json, ts: seq<string>, p: string)
    ensures EntityOnly(TypeEvents(doc, ts, p))
    decreases |ts|
  {
    if ts != [] {
      TypeEventsOnly(doc, ts[..|ts| - 1], p);
      match ListAt(doc, ts[|ts| - 1]) {
        case Items(xs) => EntityEventsOnly(ts[|ts| - 1], xs, p);
        case Raises =>
        case Absent =>
      }
    }
  }

  lemma {:induction false} EntityOnlyProjections(evs: seq<Event>, ts: string)
    requires EntityOnly(evs)
    ensures FilesOf(evs, ts) == [] && MetasOf(evs) == []
    decreases |evs|
  {
    if evs != [] {
      EntityOnlyProjections(evs[..|evs| - 1], ts);
    }
  }

  lemma {:induction false} ProjectionsAppend(a: seq<Event>, b: seq<Event>, ts: string)
    ensures FilesOf(a + b, ts) == FilesOf(a, ts) + FilesOf(b, ts)
    ensures MetasOf(a + b) == MetasOf(a) + MetasOf(b)
    decreases |b|
  {
    if b == [] {
      assert a + b == a;
    } else {
      var b0 := b[..|b| - 1];
      assert (a + b)[..|a + b| - 1] == a + b0;
      assert (a + b)[|a + b| - 1] == b[|b| - 1];
      ProjectionsAppend(a, b0, ts);
    }
  }

  lemma ProjectionsSingle(ev: Event, ts: string)
    ensures FilesOf([ev], ts) == if ev.FileEv? then [FileRecord(ev.path, ev.size, ts)] else []
    ensures MetasOf([ev]) == if ev.MetaEv? then [MetaSource(ev.doc, ev.path)] else []
  {
    assert [ev][..0] == [];
  }

  /** The file event and the metadata event that open a contributing source's events. */
  lemma HeadProjections(doc: Json, p: string, size: nat, ts: string)
    ensures FilesOf([FileEv(p, size), MetaEv(doc, p)], ts) == [FileRecord(p, size, ts)]
    ensures MetasOf([FileEv(p, size), MetaEv(doc, p)]) == [MetaSource(doc, p)]
  {
    var f, m := FileEv(p, size), MetaEv(doc, p);
    assert [f, m] == [f] + [m];
    ProjectionsAppend([f], [m], ts);
    ProjectionsSingle(f, ts);
    ProjectionsSingle(m, ts);
  }

  lemma DocEventsProjections(src: SourceFile, ts: string)
    ensures FilesOf(DocEvents(src), ts) == if Contributes(src) then [FileRecord(src.path, src.size, ts)] else []
    ensures MetasOf(DocEvents(src)) == if Contributes(src) then [MetaSource(src.load.doc, src.path)] else []
  {
    if Contributes(src) {
      var doc, p := src.load.doc, src.path;
      var head := [FileEv(p, src.size), MetaEv(doc, p)];
      var body := TypeEvents(doc, EntityTypes, p);
      assert DocEvents(src) == head + body;
      ProjectionsAppend(head, body, ts);
      TypeEventsOnly(doc, EntityTypes, p);
      EntityOnlyProjections(body, ts);
      HeadProjections(doc, p, src.size, ts);
    }
  }

  lemma {:induction false} EventsProjections(srcs: seq<SourceFile>, ts: string)
    ensures FilesOf(Events(srcs), ts) == LoadedFiles(srcs, ts)
    ensures MetasOf(Events(srcs)) == LoadedMetas(srcs)
    decreases |srcs|
  {
    if srcs != [] {
      var s0 := srcs[..|srcs| - 1];
      EventsProjections(s0, ts);
      ProjectionsAppend(Events(s0), DocEvents(srcs[|srcs| - 1]), ts);
      DocEventsProjections(srcs[|srcs| - 1], ts);
    }
  }

  /** Only a file event adds a file record. */
  lemma {:induction false} RunFiles(st0: MergeState, evs: seq<Event>, ts: string)
    requires Run(st0, evs, ts).Some?
    ensures Run(st0, evs, ts).value.files == st0.files + FilesOf(evs, ts)
    decreases |evs|
  {
    if evs != [] {
      var pre, ev := evs[..|evs| - 1], evs[|evs| - 1];
      RunFiles(st0, pre, ts);
      var sm := Run(st0, pre, ts).value;
      if ev.MetaEv? {
        assert Apply(sm, ev, ts).value.files == sm.files;
      }
    }
  }

  lemma MetadataFields(st: MergeState, n: nat, ts: string, counts: map<string, Json>)
    ensures var meta := MergeMetadata(st, n, ts, counts);
      && meta.JObj?
      && meta.fields["timestamp"] == JStr(ts)
      && meta.fields["consolidatedFiles"] == JArr(st.files)
      && meta.fields["sourceFileCount"] == JNum(n)
      && meta.fields["consolidationTool"] == JStr(ToolName)
      && meta.fields["toolVersion"] == JStr(ToolVersion)
      && meta.fields["entityCounts"] == JObj(counts)
      && ("sourceVersions" in meta.fields <==> st.sourceVersions != map[])
      && (st.sourceVersions != map[] ==> meta.fields["sourceVersions"] == JObj(st.sourceVersions))
  {
  }

  /**
   * `consolidatedFiles` records exactly the sources that loaded to a truthy
   * value, in input order, while `sourceFileCount` counts every path given.
   */
  lemma MergedFiles(srcs: seq<SourceFile>, ts: string)
    requires Merge(srcs, ts).Some?
    ensures var meta := Merge(srcs, ts).value["consolidationMetadata"];
      && meta.JObj?
      && meta.fields["consolidatedFiles"] == JArr(LoadedFiles(srcs, ts))
      && meta.fields["sourceFileCount"] == JNum(|srcs|)
      && meta.fields["timestamp"] == JStr(ts)
  {
    var st := MergedState(srcs, ts).value;
    var counts := EntityCounts(Collections(st));
    assert Merge(srcs, ts).value == Assemble(st, |srcs|, ts, counts);
    AssembleMetadata(st, |srcs|, ts, counts);
    MetadataFields(st, |srcs|, ts, counts);
    MergedStateFiles(srcs, ts);
  }

  lemma AssembleMetadata(st: MergeState, n: nat, ts: string, counts: map<string, Json>)
    ensures "consolidationMetadata" in Assemble(st, n, ts, counts)
    ensures Assemble(st, n, ts, counts)["consolidationMetadata"] == MergeMetadata(st, n, ts, counts)
  {
  }

  /** The file records of the final state are those of the truthy sources, in order. */
  lemma MergedStateFiles(srcs: seq<SourceFile>, ts: string)
    requires MergedState(srcs, ts).Some?
    ensures MergedState(srcs, ts).value.files == LoadedFiles(srcs, ts)
  {
    RunFiles(Init(ts), Events(srcs), ts);
    EventsProjections(srcs, ts);
    assert Init(ts).files == [];
  }

  /** The value recorded under a document's path when its `ies4Version` is not the tool's. */
  function Deviation(doc: Json): Option<Json> {
    if doc.JObj? && "ies4Version" in doc.fields && doc.fields["ies4Version"] != JStr(Ies4Version)
    then Some(doc.fields["ies4Version"])
    else None
  }

  function RecordDeviations(sv: map<string, Json>, metas: seq<MetaSource>): map<string, Json>
    decreases |metas|
  {
    if metas == [] then sv
    else
      var m := metas[|metas| - 1];
      var sv' := RecordDeviations(sv, metas[..|metas| - 1]);
      if Deviation(m.doc).Some? then sv'[m.path := Deviation(m.doc).value] else sv'
  }

  lemma CopyTitleKeeps(st: MergeState, doc: Json)
    requires CopyTitle(st, doc).Some?
    ensures var st' := CopyTitle(st, doc).value;
      st'.sourceVersions == st.sourceVersions && st'.files == st.files
      && st'.lists == st.lists && st'.versions == st.versions
  {
  }

  lemma ApplySourceVersions(sm: MergeState, ev: Event, ts: string)
    requires Apply(sm, ev, ts).Some?
    ensures Apply(sm, ev, ts).value.sourceVersions ==
      if ev.MetaEv? && Deviation(ev.doc).Some?
      then sm.sourceVersions[ev.path := Deviation(ev.doc).value]
      else sm.sourceVersions
  {
    if ev.MetaEv? {
      CopyTitleKeeps(sm, ev.doc);
    }
  }

  lemma {:induction false} RunSourceVersions(st0: MergeState, evs: seq<Event>, ts: string)
    requires Run(st0, evs, ts).Some?
    ensures Run(st0, evs, ts).value.sourceVersions == RecordDeviations(st0.sourceVersions, MetasOf(evs))
    decreases |evs|
  {
    if evs != [] {
      var pre, ev := evs[..|evs| - 1], evs[|evs| - 1];
      RunSourceVersions(st0, pre, ts);
      ApplySourceVersions(Run(st0, pre, ts).value, ev, ts);
      if ev.MetaEv? {
        var m := MetasOf(evs);
        assert m[..|m| - 1] == MetasOf(pre);
      } else {
        assert MetasOf(evs) == MetasOf(pre) + [];
        assert MetasOf(pre) + [] == MetasOf(pre);
      }
    }
  }

  lemma RecordDeviationsSnoc(sv: map<string, Json>, ms: seq<MetaSource>, m: MetaSource)
    ensures RecordDeviations(sv, ms + [m]) ==
      var sv0 := RecordDeviations(sv, ms);
      if Deviation(m.doc).Some? then sv0[m.path := Deviation(m.doc).value] else sv0
  {
    assert (ms + [m])[..|ms|] == ms;
  }

  /** The deviations recorded over the sources: the last source's record, if any, on top of the rest. */
  lemma DeviationsSnoc(srcs: seq<SourceFile>)
    requires srcs != []
    ensures var src := srcs[|srcs| - 1];
      var sv0 := RecordDeviations(map[], LoadedMetas(srcs[..|srcs| - 1]));
      RecordDeviations(map[], LoadedMetas(srcs)) ==
        if Contributes(src) && Deviation(src.load.doc).Some?
        then sv0[src.path := Deviation(src.load.doc).value] else sv0
  {
    var m0 := LoadedMetas(srcs[..|srcs| - 1]);
    var src := srcs[|srcs| - 1];
    if Contributes(src) {
      RecordDeviationsSnoc(map[], m0, MetaSource(src.load.doc, src.path));
    } else {
      assert m0 + [] == m0;
    }
  }

  predicate DeviatesAt(srcs: seq<SourceFile>, i: int, p: string) {
    0 <= i < |srcs| && Contributes(srcs[i]) && srcs[i].path == p && Deviation(srcs[i].load.doc).Some?
  }

  lemma {:induction false} DeviationsMembership(srcs: seq<SourceFile>, p: string)
    ensures p in RecordDeviations(map[], LoadedMetas(srcs)) <==> exists i :: DeviatesAt(srcs, i, p)
    decreases |srcs|
  {
    if srcs != [] {
      var s0 := srcs[..|srcs| - 1];
      DeviationsMembership(s0, p);
      DeviationsSnoc(srcs);
      if exists i :: DeviatesAt(s0, i, p) {
        var i :| DeviatesAt(s0, i, p);
        assert DeviatesAt(srcs, i, p);
      }
      var last := srcs[|srcs| - 1];
      if Contributes(last) && Deviation(last.load.doc).Some? && last.path == p {
        assert DeviatesAt(srcs, |srcs| - 1, p);
      }
      if exists i :: DeviatesAt(srcs, i, p) {
        var i :| DeviatesAt(srcs, i, p);
        if i < |s0| {
          assert DeviatesAt(s0, i, p);
        }
      }
    }
  }

  lemma {:induction false} DeviationsLast(srcs: seq<SourceFile>, p: string, i: int)
    requires DeviatesAt(srcs, i, p)
    requires forall j :: i < j < |srcs| ==> srcs[j].path != p
    ensures var sv := RecordDeviations(map[], LoadedMetas(srcs));
      p in sv && sv[p] == Deviation(srcs[i].load.doc).value
    decreases |srcs|
  {
    var s0 := srcs[..|srcs| - 1];
    DeviationsSnoc(srcs);
    if i < |s0| {
      assert DeviatesAt(s0, i, p);
      DeviationsLast(s0, p, i);
    }
  }

  /**
   * `sourceVersions` appears in the metadata exactly when some loaded
   * document carries an `ies4Version` other than "4.3.0", and then maps
   * each such document's path to that version (the last one for a path met
   * twice).
   */
  lemma MergedSourceVersions(srcs: seq<SourceFile>, ts: string, p: string)
    requires Merge(srcs, ts).Some?
    ensures var meta := Merge(srcs, ts).value["consolidationMetadata"].fields;
      var sv := RecordDeviations(map[], LoadedMetas(srcs));
      && ("sourceVersions" in meta <==> sv != map[])
      && (sv != map[] ==> meta["sourceVersions"] == JObj(sv))
    ensures p in RecordDeviations(map[], LoadedMetas(srcs)) <==> exists i :: DeviatesAt(srcs, i, p)
  {
    var st := MergedState(srcs, ts).value;
    AssembleParts(st, |srcs|, ts, EntityCounts(Collections(st)), "countries");
    MetadataFields(st, |srcs|, ts, EntityCounts(Collections(st)));
    RunSourceVersions(Init(ts), Events(srcs), ts);
    EventsProjections(srcs, ts);
    DeviationsMembership(srcs, p);
  }
}
