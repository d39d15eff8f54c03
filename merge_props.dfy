/**
 * General facts about the merge fold: how runs compose, how the event list of
 * a folder splits, and the tracking invariant the merge keeps between each
 * collection and its `entity_versions` map (every stored entity has an id,
 * ids are unique, and the tracked ids are exactly the stored ones).
 */
module MergeProps {
  import opened PyJson
  import opened Versions
  import opened MergeSpec

  // ---------------------------------------------------------------------
  // Runs
  // ---------------------------------------------------------------------

  lemma RunSnoc(st: MergeState, evs: seq<Event>, ev: Event, ts: string)
    ensures Run(st, evs + [ev], ts) ==
      match Run(st, evs, ts)
      case None => None
      case Some(st1) => Apply(st1, ev, ts)
  {
    assert (evs + [ev])[..|evs|] == evs;
  }

  lemma {:induction false} RunAppend(st: MergeState, a: seq<Event>, b: seq<Event>, ts: string)
    ensures Run(st, a + b, ts) ==
      match Run(st, a, ts)
      case None => None
      case Some(st1) => Run(st1, b, ts)
    decreases |b|
  {
    if b == [] {
      assert a + b == a;
    } else {
      var b0, ev := b[..|b| - 1], b[|b| - 1];
      assert b == b0 + [ev];
      assert a + b == (a + b0) + [ev];
      RunSnoc(st, a + b0, ev, ts);
      RunAppend(st, a, b0, ts);
      match Run(st, a, ts) {
        case None =>
        case Some(st1) => RunSnoc(st1, b0, ev, ts);
      }
    }
  }

  /** Once the merge has raised, no later event revives it. */
  lemma RunAbortIsFinal(st: MergeState, a: seq<Event>, b: seq<Event>, ts: string)
    requires Run(st, a, ts).None?
    ensures Run(st, a + b, ts).None?
  {
    RunAppend(st, a, b, ts);
  }

  // ---------------------------------------------------------------------
  // Splitting the event list
  // ---------------------------------------------------------------------

  lemma EventsSnoc(srcs: seq<SourceFile>, x: SourceFile)
    ensures Events(srcs + [x]) == Events(srcs) + DocEvents(x)
  {
    assert (srcs + [x])[..|srcs|] == srcs;
  }

  /** The snoc-recursive flattening that `Events` is an instance of. */
  function Concat<X, Y>(xs: seq<X>, f: X -> seq<Y>): seq<Y>
    decreases |xs|
  {
    if xs == [] then [] else Concat(xs[..|xs| - 1], f) + f(xs[|xs| - 1])
  }

  lemma {:induction false} ConcatAppend<X, Y>(a: seq<X>, b: seq<X>, f: X -> seq<Y>)
    ensures Concat(a + b, f) == Concat(a, f) + Concat(b, f)
    decreases |b|
  {
    if b == [] {
      assert a + b == a;
    } else {
      var b0 := b[..|b| - 1];
      assert (a + b)[..|a + b| - 1] == a + b0;
      ConcatAppend(a, b0, f);
    }
  }

  lemma {:induction false} EventsConcat(srcs: seq<SourceFile>)
    ensures Events(srcs) == Concat(srcs, DocEvents)
    decreases |srcs|
  {
    if srcs != [] {
      EventsConcat(srcs[..|srcs| - 1]);
    }
  }

  lemma EventsAppend(a: seq<SourceFile>, b: seq<SourceFile>)
    ensures Events(a + b) == Events(a) + Events(b)
  {
    EventsConcat(a + b);
    EventsConcat(a);
    EventsConcat(b);
    ConcatAppend(a, b, DocEvents);
  }

  // Regrouping event lists. These stay separate generic lemmas: stated
  // inline, the same equalities make the solver unfold the event functions
  // of every list involved.

  lemma SplitAt<X>(s: seq<X>, i: nat)
    requires i < |s|
    ensures s == s[..i] + [s[i]] + s[i + 1..]
  {
  }

  lemma Regroup<X>(a: seq<X>, b: seq<X>, c: seq<X>, d: seq<X>)
    ensures a + (b + c) + d == (a + b) + (c + d)
  {
  }

  lemma Assoc4<X>(a: seq<X>, b: seq<X>, c: seq<X>, d: seq<X>)
    ensures a + b + c + d == a + (b + c + d)
  {
  }

  lemma Assoc3<X>(a: seq<X>, b: seq<X>, c: seq<X>)
    ensures (a + b) + c == a + (b + c)
  {
  }

  lemma Regroup5<X>(a: seq<X>, b: seq<X>, c: seq<X>, d: seq<X>, e: seq<X>)
    ensures a + (b + (c + d) + e) == (a + b + c) + (d + e)
  {
  }

  lemma EventsAround(a: seq<SourceFile>, x: SourceFile, b: seq<SourceFile>)
    ensures Events(a + [x] + b) == Events(a) + DocEvents(x) + Events(b)
  {
    EventsAppend(a + [x], b);
    EventsSnoc(a, x);
  }

  lemma EventsSplit(srcs: seq<SourceFile>, i: nat)
    requires i < |srcs|
    ensures Events(srcs) == Events(srcs[..i]) + DocEvents(srcs[i]) + Events(srcs[i + 1..])
  {
    SplitAt(srcs, i);
    EventsAround(srcs[..i], srcs[i], srcs[i + 1..]);
  }

  lemma {:induction false} TypeEventsAppend(doc: Json, a: seq<string>, b: seq<string>, p: string)
    ensures TypeEvents(doc, a + b, p) == TypeEvents(doc, a, p) + TypeEvents(doc, b, p)
    decreases |b|
  {
    if b == [] {
      assert a + b == a;
    } else {
      var b0, u := b[..|b| - 1], b[|b| - 1];
      assert (a + b)[..|a + b| - 1] == a + b0 && (a + b)[|a + b| - 1] == u;
      TypeEventsAppend(doc, a, b0, p);
      var ea, eb, eu := TypeEvents(doc, a, p), TypeEvents(doc, b0, p), ListEvents(doc, u, p);
      assert TypeEvents(doc, a + b, p) == (ea + eb) + eu;
      assert TypeEvents(doc, b, p) == eb + eu;
      Assoc3(ea, eb, eu);
    }
  }

  lemma TypeEventsSnoc(doc: Json, ts: seq<string>, t: string, p: string)
    ensures TypeEvents(doc, ts + [t], p) == TypeEvents(doc, ts, p) + ListEvents(doc, t, p)
  {
    assert (ts + [t])[..|ts|] == ts;
  }

  lemma TypeEventsAround(doc: Json, a: seq<string>, t: string, b: seq<string>, p: string)
    ensures TypeEvents(doc, a + [t] + b, p) == TypeEvents(doc, a, p) + ListEvents(doc, t, p) + TypeEvents(doc, b, p)
  {
    TypeEventsAppend(doc, a + [t], b, p);
    TypeEventsSnoc(doc, a, t, p);
  }

  lemma TypeEventsSplit(doc: Json, ts: seq<string>, k: nat, p: string)
    requires k < |ts|
    ensures TypeEvents(doc, ts, p) == TypeEvents(doc, ts[..k], p) + ListEvents(doc, ts[k], p) + TypeEvents(doc, ts[k + 1..], p)
  {
    SplitAt(ts, k);
    TypeEventsAround(doc, ts[..k], ts[k], ts[k + 1..], p);
  }

  lemma TypeEventsStep(doc: Json, ts: seq<string>, k: nat, p: string)
    requires k < |ts|
    ensures TypeEvents(doc, ts[..k + 1], p) == TypeEvents(doc, ts[..k], p) + ListEvents(doc, ts[k], p)
  {
    assert ts[..k + 1][..k] == ts[..k];
  }

  lemma {:induction false} EntityEventsAppend(t: string, a: seq<Json>, b: seq<Json>, p: string)
    ensures EntityEvents(t, a + b, p) == EntityEvents(t, a, p) + EntityEvents(t, b, p)
    decreases |b|
  {
    if b == [] {
      assert a + b == a;
    } else {
      var b0 := b[..|b| - 1];
      assert (a + b)[..|a + b| - 1] == a + b0;
      EntityEventsAppend(t, a, b0, p);
    }
  }

  lemma EntityEventsStep(t: string, xs: seq<Json>, j: nat, p: string)
    requires j < |xs|
    ensures EntityEvents(t, xs[..j + 1], p) == EntityEvents(t, xs[..j], p) + [EntityEv(t, xs[j], p)]
  {
    assert xs[..j + 1][..j] == xs[..j];
  }

  /**
   * If the merge raises part-way through the events of source `i`, after the
   * events `mid`, the whole merge raises.
   */
  lemma AbortedMerge(srcs: seq<SourceFile>, i: nat, mid: seq<Event>, rest: seq<Event>, ts: string)
    requires i < |srcs|
    requires DocEvents(srcs[i]) == mid + rest
    requires Run(Init(ts), Events(srcs[..i]) + mid, ts).None?
    ensures Merge(srcs, ts).None?
  {
    EventsSplit(srcs, i);
    Regroup(Events(srcs[..i]), mid, rest, Events(srcs[i + 1..]));
    RunAbortIsFinal(Init(ts), Events(srcs[..i]) + mid, rest + Events(srcs[i + 1..]), ts);
  }

  /** The events of a source split around the entity `j` of collection `k`. */
  lemma EntityAbortPoint(src: SourceFile, k: nat, xs: seq<Json>, j: nat)
    requires Contributes(src) && k < |EntityTypes|
    requires ListAt(src.load.doc, EntityTypes[k]) == Items(xs) && j < |xs|
    ensures DocEvents(src) ==
      ([FileEv(src.path, src.size), MetaEv(src.load.doc, src.path)]
        + TypeEvents(src.load.doc, EntityTypes[..k], src.path)
        + EntityEvents(EntityTypes[k], xs[..j + 1], src.path))
      + (EntityEvents(EntityTypes[k], xs[j + 1..], src.path)
        + TypeEvents(src.load.doc, EntityTypes[k + 1..], src.path))
  {
    var doc, p, t := src.load.doc, src.path, EntityTypes[k];
    TypeEventsSplit(doc, EntityTypes, k, p);
    assert xs == xs[..j + 1] + xs[j + 1..];
    EntityEventsAppend(t, xs[..j + 1], xs[j + 1..], p);
    var head, before, upTo, from, after :=
      [FileEv(p, src.size), MetaEv(doc, p)], TypeEvents(doc, EntityTypes[..k], p),
      EntityEvents(t, xs[..j + 1], p), EntityEvents(t, xs[j + 1..], p), TypeEvents(doc, EntityTypes[k + 1..], p);
    assert DocEvents(src) == head + (before + (upTo + from) + after);
    Regroup5(head, before, upTo, from, after);
  }

  /** The events of a source split at a collection whose lookup raises. */
  lemma ListAbortPoint(src: SourceFile, k: nat)
    requires Contributes(src) && k < |EntityTypes|
    requires ListAt(src.load.doc, EntityTypes[k]) == Raises
    ensures DocEvents(src) ==
      ([FileEv(src.path, src.size), MetaEv(src.load.doc, src.path)]
        + TypeEvents(src.load.doc, EntityTypes[..k], src.path) + [RaiseEv])
      + TypeEvents(src.load.doc, EntityTypes[k + 1..], src.path)
  {
    var doc, p := src.load.doc, src.path;
    TypeEventsSplit(doc, EntityTypes, k, p);
    var head, before, after :=
      [FileEv(p, src.size), MetaEv(doc, p)], TypeEvents(doc, EntityTypes[..k], p), TypeEvents(doc, EntityTypes[k + 1..], p);
    assert ListEvents(doc, EntityTypes[k], p) == [RaiseEv];
    assert DocEvents(src) == head + (before + [RaiseEv] + after);
    Assoc4(head, before, [RaiseEv], after);
  }

  /** The events of the merge up to source `i`'s metadata. */
  ghost function HeadEvents(sources: seq<SourceFile>, i: nat): seq<Event>
    requires i < |sources| && Contributes(sources[i])
  {
    var src := sources[i];
    Events(sources[..i]) + [FileEv(src.path, src.size), MetaEv(src.load.doc, src.path)]
  }

  /** The events of the merge up to source `i`'s first `k` collections. */
  ghost function TypePrefix(sources: seq<SourceFile>, i: nat, k: nat): seq<Event>
    requires i < |sources| && Contributes(sources[i]) && k <= |EntityTypes|
  {
    HeadEvents(sources, i) + TypeEvents(sources[i].load.doc, EntityTypes[..k], sources[i].path)
  }

  lemma TypePrefixStep(sources: seq<SourceFile>, i: nat, k: nat)
    requires i < |sources| && Contributes(sources[i]) && k < |EntityTypes|
    ensures TypePrefix(sources, i, k + 1)
      == TypePrefix(sources, i, k) + ListEvents(sources[i].load.doc, EntityTypes[k], sources[i].path)
  {
    var doc, path := sources[i].load.doc, sources[i].path;
    TypeEventsStep(doc, EntityTypes, k, path);
  }

  lemma TypePrefixEnds(sources: seq<SourceFile>, i: nat)
    requires i < |sources| && Contributes(sources[i])
    ensures TypePrefix(sources, i, 0) == HeadEvents(sources, i)
    ensures TypePrefix(sources, i, |EntityTypes|) == Events(sources[..i]) + DocEvents(sources[i])
    ensures HeadEvents(sources, i)
      == Events(sources[..i]) + [FileEv(sources[i].path, sources[i].size)] + [MetaEv(sources[i].load.doc, sources[i].path)]
  {
    TypePrefixStart(sources, i);
    TypePrefixFull(sources, i);
    var src := sources[i];
    assert [FileEv(src.path, src.size), MetaEv(src.load.doc, src.path)]
      == [FileEv(src.path, src.size)] + [MetaEv(src.load.doc, src.path)];
  }

  lemma TypePrefixStart(sources: seq<SourceFile>, i: nat)
    requires i < |sources| && Contributes(sources[i])
    ensures TypePrefix(sources, i, 0) == HeadEvents(sources, i)
  {
    var src := sources[i];
    assert EntityTypes[..0] == [];
    assert TypeEvents(src.load.doc, EntityTypes[..0], src.path) == [];
  }

  lemma TypePrefixFull(sources: seq<SourceFile>, i: nat)
    requires i < |sources| && Contributes(sources[i])
    ensures TypePrefix(sources, i, |EntityTypes|) == Events(sources[..i]) + DocEvents(sources[i])
  {
    var src := sources[i];
    var pre, head := Events(sources[..i]), [FileEv(src.path, src.size), MetaEv(src.load.doc, src.path)];
    var body := TypeEvents(src.load.doc, EntityTypes, src.path);
    assert EntityTypes[..|EntityTypes|] == EntityTypes;
    assert TypePrefix(sources, i, |EntityTypes|) == (pre + head) + body;
    assert DocEvents(src) == head + body;
    Assoc3(pre, head, body);
  }

  lemma MetaAbort(sources: seq<SourceFile>, i: nat, ts: string)
    requires i < |sources| && Contributes(sources[i])
    requires Run(Init(ts), HeadEvents(sources, i), ts).None?
    ensures Merge(sources, ts).None?
  {
    var src := sources[i];
    var head := [FileEv(src.path, src.size), MetaEv(src.load.doc, src.path)];
    AbortedMerge(sources, i, head, TypeEvents(src.load.doc, EntityTypes, src.path), ts);
  }

  lemma ListAbort(sources: seq<SourceFile>, i: nat, k: nat, ts: string)
    requires i < |sources| && Contributes(sources[i]) && k < |EntityTypes|
    requires ListAt(sources[i].load.doc, EntityTypes[k]) == Raises
    requires Run(Init(ts), TypePrefix(sources, i, k) + [RaiseEv], ts).None?
    ensures Merge(sources, ts).None?
  {
    var src := sources[i];
    var doc, path := src.load.doc, src.path;
    ListAbortPoint(src, k);
    var mid := [FileEv(path, src.size), MetaEv(doc, path)] + TypeEvents(doc, EntityTypes[..k], path) + [RaiseEv];
    Assoc4(Events(sources[..i]), [FileEv(path, src.size), MetaEv(doc, path)], TypeEvents(doc, EntityTypes[..k], path), [RaiseEv]);
    AbortedMerge(sources, i, mid, TypeEvents(doc, EntityTypes[k + 1..], path), ts);
  }

  lemma EntityAbort(sources: seq<SourceFile>, i: nat, k: nat, xs: seq<Json>, j: nat, ts: string)
    requires i < |sources| && Contributes(sources[i]) && k < |EntityTypes|
    requires ListAt(sources[i].load.doc, EntityTypes[k]) == Items(xs) && j < |xs|
    requires Run(Init(ts), TypePrefix(sources, i, k) + EntityEvents(EntityTypes[k], xs[..j + 1], sources[i].path), ts).None?
    ensures Merge(sources, ts).None?
  {
    var src := sources[i];
    var doc, path, t := src.load.doc, src.path, EntityTypes[k];
    EntityAbortPoint(src, k, xs, j);
    var mid := [FileEv(path, src.size), MetaEv(doc, path)] + TypeEvents(doc, EntityTypes[..k], path) + EntityEvents(t, xs[..j + 1], path);
    Assoc4(Events(sources[..i]), [FileEv(path, src.size), MetaEv(doc, path)], TypeEvents(doc, EntityTypes[..k], path), EntityEvents(t, xs[..j + 1], path));
    AbortedMerge(sources, i, mid, EntityEvents(t, xs[j + 1..], path) + TypeEvents(doc, EntityTypes[k + 1..], path), ts);
  }

  // ---------------------------------------------------------------------
  // First-occurrence search
  // ---------------------------------------------------------------------

  lemma {:induction false} IndexOfIdAppend(items: seq<Json>, x: Json, id: Json)
    ensures IndexOfId(items + [x], id) ==
      if IndexOfId(items, id) < |items| then IndexOfId(items, id)
      else if IdOf(x) == Some(id) then |items|
      else |items| + 1
    decreases |items|
  {
    if items != [] && IdOf(items[0]) != Some(id) {
      assert (items + [x])[1..] == items[1..] + [x];
      IndexOfIdAppend(items[1..], x, id);
    }
  }

  /** A position holding the id, with no earlier one holding it, is the first occurrence. */
  lemma IndexOfIdIs(items: seq<Json>, id: Json, i: nat)
    requires i < |items| && IdOf(items[i]) == Some(id)
    requires forall k :: 0 <= k < i ==> IdOf(items[k]) != Some(id)
    ensures IndexOfId(items, id) == i
  {
  }

  lemma {:induction false} IndexOfIdSameIds(a: seq<Json>, b: seq<Json>, id: Json)
    requires |a| == |b|
    requires forall k :: 0 <= k < |a| ==> IdOf(a[k]) == IdOf(b[k])
    ensures IndexOfId(a, id) == IndexOfId(b, id)
    decreases |a|
  {
    if a != [] && IdOf(a[0]) != Some(id) {
      IndexOfIdSameIds(a[1..], b[1..], id);
    }
  }

  // ---------------------------------------------------------------------
  // The tracking invariant
  // ---------------------------------------------------------------------

  /**
   * A collection and its version map agree: each stored entity has an id,
   * is the first (hence only) one with that id, and that id is tracked;
   * each tracked id is stored.
   */
  ghost predicate Tracked(items: seq<Json>, known: map<Json, Json>) {
    && |items| == |known|
    && (forall k :: 0 <= k < |items| ==>
          IdOf(items[k]).Some? && IdOf(items[k]).value in known && IndexOfId(items, IdOf(items[k]).value) == k)
    && (forall id :: id in known ==> IndexOfId(items, id) < |items|)
  }

  ghost predicate Inv(st: MergeState) {
    forall t :: t in EntityTypes ==> t in st.lists && Tracked(st.lists[t], VersionsFor(st, t))
  }

  lemma TrackedEmpty()
    ensures Tracked([], map[])
  {
  }

  lemma InitInv(ts: string)
    ensures Inv(Init(ts))
  {
  }

  lemma TrackedUntracked(items: seq<Json>, known: map<Json, Json>, id: Json)
    requires Tracked(items, known) && id !in known
    ensures IndexOfId(items, id) == |items|
  {
    var i := IndexOfId(items, id);
    if i < |items| {
      assert false;
    }
  }

  lemma TrackedInsert(items: seq<Json>, known: map<Json, Json>, x: Json, id: Json, v: Json)
    requires Tracked(items, known) && id !in known && IdOf(x) == Some(id)
    ensures Tracked(items + [x], known[id := v])
  {
    var items', known' := items + [x], known[id := v];
    TrackedUntracked(items, known, id);
    IndexOfIdAppend(items, x, id);
    forall k | 0 <= k < |items'|
      ensures IdOf(items'[k]).Some? && IdOf(items'[k]).value in known'
      ensures IndexOfId(items', IdOf(items'[k]).value) == k
    {
      if k < |items| {
        IndexOfIdAppend(items, x, IdOf(items[k]).value);
      }
    }
    forall j | j in known'
      ensures IndexOfId(items', j) < |items'|
    {
      IndexOfIdAppend(items, x, j);
    }
  }

  lemma TrackedReplace(items: seq<Json>, known: map<Json, Json>, x: Json, id: Json, v: Json)
    requires Tracked(items, known) && id in known && IdOf(x) == Some(id)
    ensures IndexOfId(items, id) < |items|
    ensures Tracked(items[IndexOfId(items, id) := x], known[id := v])
  {
    var i := IndexOfId(items, id);
    var items', known' := items[i := x], known[id := v];
    forall k | 0 <= k < |items|
      ensures IdOf(items'[k]) == IdOf(items[k])
    {
    }
    forall j
      ensures IndexOfId(items', j) == IndexOfId(items, j)
    {
      IndexOfIdSameIds(items', items, j);
    }
    assert known'.Keys == known.Keys;
    assert |known'| == |known|;
    forall k | 0 <= k < |items'|
      ensures IdOf(items'[k]).Some? && IdOf(items'[k]).value in known'
      ensures IndexOfId(items', IdOf(items'[k]).value) == k
    {
    }
    forall j | j in known'
      ensures IndexOfId(items', j) < |items'|
    {
    }
  }

  /** Writing collection `t` and its version map keeps the invariant when they agree. */
  lemma SetCollectionKeepsInv(st: MergeState, t: string, items: seq<Json>, known: map<Json, Json>)
    requires Inv(st) && (t in EntityTypes ==> Tracked(items, known))
    ensures Inv(st.(lists := st.lists[t := items], versions := st.versions[t := known]))
  {
    var st' := st.(lists := st.lists[t := items], versions := st.versions[t := known]);
    forall u | u in EntityTypes
      ensures u in st'.lists && Tracked(st'.lists[u], VersionsFor(st', u))
    {
      if u == t {
        assert st'.lists[u] == items && VersionsFor(st', u) == known;
      } else {
        assert st'.lists[u] == st.lists[u] && VersionsFor(st', u) == VersionsFor(st, u);
      }
    }
  }

  lemma InsertKeepsInv(st: MergeState, t: string, x: Json, id: Json, v: Json)
    requires Inv(st) && id !in VersionsFor(st, t) && IdOf(x) == Some(id)
    ensures Inv(st.(lists := st.lists[t := ListFor(st, t) + [x]],
                    versions := st.versions[t := VersionsFor(st, t)[id := v]]))
  {
    var items, known := ListFor(st, t), VersionsFor(st, t);
    if t in EntityTypes {
      TrackedInsert(items, known, x, id, v);
    }
    SetCollectionKeepsInv(st, t, items + [x], known[id := v]);
  }

  lemma ReplaceKeepsInv(st: MergeState, t: string, x: Json, id: Json, v: Json)
    requires Inv(st) && id in VersionsFor(st, t) && IdOf(x) == Some(id)
    requires IndexOfId(ListFor(st, t), id) < |ListFor(st, t)|
    ensures Inv(st.(lists := st.lists[t := ListFor(st, t)[IndexOfId(ListFor(st, t), id) := x]],
                    versions := st.versions[t := VersionsFor(st, t)[id := v]]))
  {
    var items, known := ListFor(st, t), VersionsFor(st, t);
    var i := IndexOfId(items, id);
    if t in EntityTypes {
      TrackedReplace(items, known, x, id, v);
    }
    SetCollectionKeepsInv(st, t, items[i := x], known[id := v]);
  }

  /** The three outcomes of merging an entity with a hashable id into collection `t`: insert, replace, skip. */
  lemma MergeEntityInserts(sm: MergeState, t: string, e: Json, p: string, ts: string, id: Json)
    requires IdOf(e) == Some(id) && Hashable(id) && id !in VersionsFor(sm, t)
    ensures MergeEntity(sm, t, e, p, ts) ==
      Some(sm.(lists := sm.lists[t := ListFor(sm, t) + [Stamp(e, p, ts)]],
               versions := sm.versions[t := VersionsFor(sm, t)[id := VersionOf(e)]]))
    ensures ListFor(MergeEntity(sm, t, e, p, ts).value, t) == ListFor(sm, t) + [Stamp(e, p, ts)]
    ensures VersionsFor(MergeEntity(sm, t, e, p, ts).value, t) == VersionsFor(sm, t)[id := VersionOf(e)]
  {
  }

  lemma MergeEntityReplaces(sm: MergeState, t: string, e: Json, p: string, ts: string, id: Json)
    requires IdOf(e) == Some(id) && Hashable(id) && id in VersionsFor(sm, t)
    requires CompareJson(VersionOf(e), VersionsFor(sm, t)[id]).Some?
    requires CompareJson(VersionOf(e), VersionsFor(sm, t)[id]).value > 0
    requires IndexOfId(ListFor(sm, t), id) < |ListFor(sm, t)|
    ensures var items, known := ListFor(sm, t), VersionsFor(sm, t);
      var x := Replaced(e, p, ts, known[id]);
      && MergeEntity(sm, t, e, p, ts) ==
         Some(sm.(lists := sm.lists[t := items[IndexOfId(items, id) := x]], versions := sm.versions[t := known[id := VersionOf(e)]]))
      && ListFor(MergeEntity(sm, t, e, p, ts).value, t) == items[IndexOfId(items, id) := x]
      && VersionsFor(MergeEntity(sm, t, e, p, ts).value, t) == known[id := VersionOf(e)]
  {
  }

  lemma MergeEntitySkips(sm: MergeState, t: string, e: Json, p: string, ts: string, id: Json)
    requires IdOf(e) == Some(id) && Hashable(id) && id in VersionsFor(sm, t)
    requires CompareJson(VersionOf(e), VersionsFor(sm, t)[id]).Some?
    requires CompareJson(VersionOf(e), VersionsFor(sm, t)[id]).value <= 0
      || IndexOfId(ListFor(sm, t), id) == |ListFor(sm, t)|
    ensures MergeEntity(sm, t, e, p, ts) == Some(sm)
  {
  }

  lemma MergeEntityKeepsInv(st: MergeState, t: string, e: Json, p: string, ts: string)
    requires Inv(st) && MergeEntity(st, t, e, p, ts).Some?
    ensures Inv(MergeEntity(st, t, e, p, ts).value)
  {
    if IdOf(e).Some? {
      var id := IdOf(e).value;
      var items, known := ListFor(st, t), VersionsFor(st, t);
      if id !in known {
        InsertKeepsInv(st, t, Stamp(e, p, ts), id, VersionOf(e));
      } else if CompareJson(VersionOf(e), known[id]).value > 0 && IndexOfId(items, id) < |items| {
        ReplaceKeepsInv(st, t, Replaced(e, p, ts, known[id]), id, VersionOf(e));
      }
    }
  }

  lemma ApplyKeepsInv(st: MergeState, ev: Event, ts: string)
    requires Inv(st) && Apply(st, ev, ts).Some?
    ensures Inv(Apply(st, ev, ts).value)
  {
    var st' := Apply(st, ev, ts).value;
    match ev {
      case FileEv(_, _) =>
        CollectionsKeepInv(st, st');
      case RaiseEv =>
      case MetaEv(doc, p) =>
        MetaKeepsCollections(st, doc, p);
        CollectionsKeepInv(st, st');
      case EntityEv(t, e, p) =>
        MergeEntityKeepsInv(st, t, e, p, ts);
    }
  }

  /** The metadata step touches neither the collections nor the version maps. */
  lemma MetaKeepsCollections(st: MergeState, doc: Json, p: string)
    requires PreserveSourceMetadata(st, doc, p).Some?
    ensures PreserveSourceMetadata(st, doc, p).value.lists == st.lists
    ensures PreserveSourceMetadata(st, doc, p).value.versions == st.versions
  {
  }

  lemma CollectionsKeepInv(st: MergeState, st': MergeState)
    requires Inv(st) && st'.lists == st.lists && st'.versions == st.versions
    ensures Inv(st')
  {
    forall t | t in EntityTypes
      ensures t in st'.lists && Tracked(st'.lists[t], VersionsFor(st', t))
    {
      assert VersionsFor(st', t) == VersionsFor(st, t);
    }
  }

  lemma {:induction false} RunKeepsInv(st: MergeState, evs: seq<Event>, ts: string)
    requires Inv(st) && Run(st, evs, ts).Some?
    ensures Inv(Run(st, evs, ts).value)
    decreases |evs|
  {
    if evs != [] {
      RunKeepsInv(st, evs[..|evs| - 1], ts);
      ApplyKeepsInv(Run(st, evs[..|evs| - 1], ts).value, evs[|evs| - 1], ts);
    }
  }

  // ---------------------------------------------------------------------
  // When the merge completes
  // ---------------------------------------------------------------------

  /** An entity taken without raising: no "id" key, or a hashable id and a string version. */
  predicate Mergeable(e: Json) {
    IdOf(e).Some? ==> Hashable(IdOf(e).value) && VersionOf(e).JStr?
  }

  /** A dict whose recognised lists hold only mergeable entities. */
  predicate MergeableDoc(doc: Json) {
    && doc.JObj?
    && forall t, k :: t in EntityTypes && ListAt(doc, t).Items? && 0 <= k < |ListAt(doc, t).items|
         ==> Mergeable(ListAt(doc, t).items[k])
  }

  /** Every document the merge reads (every truthy load) is mergeable. */
  predicate MergeableSources(srcs: seq<SourceFile>) {
    forall i :: 0 <= i < |srcs| && Contributes(srcs[i]) ==> MergeableDoc(srcs[i].load.doc)
  }

  /** Every recorded version is a string, so a later string version compares with it. */
  predicate StringVersions(st: MergeState) {
    forall t, id :: t in st.versions && id in st.versions[t] ==> st.versions[t][id].JStr?
  }

  predicate SafeEvent(ev: Event) {
    match ev
    case FileEv(_, _) => true
    case MetaEv(doc, _) => doc.JObj?
    case EntityEv(_, e, _) => Mergeable(e)
    case RaiseEv => false
  }

  predicate AllSafe(evs: seq<Event>) {
    forall k :: 0 <= k < |evs| ==> SafeEvent(evs[k])
  }

  lemma AllSafeAppend(a: seq<Event>, b: seq<Event>)
    requires AllSafe(a) && AllSafe(b)
    ensures AllSafe(a + b)
  {
    forall k | 0 <= k < |a + b|
      ensures SafeEvent((a + b)[k])
    {
      if k >= |a| {
        assert (a + b)[k] == b[k - |a|];
      }
    }
  }

  lemma ApplyCompletes(st: MergeState, ev: Event, ts: string)
    requires StringVersions(st) && SafeEvent(ev)
    ensures Apply(st, ev, ts).Some? && StringVersions(Apply(st, ev, ts).value)
  {
    match ev {
      case FileEv(_, _) =>
      case MetaEv(doc, p) =>
        assert PreserveSourceMetadata(st, doc, p).Some?;
        MetaKeepsCollections(st, doc, p);
      case EntityEv(t, e, p) =>
        EntityCompletes(st, t, e, p, ts);
    }
  }

  lemma VersionsStayStrings(st: MergeState, t: string, id: Json, v: Json, st': MergeState)
    requires StringVersions(st) && v.JStr?
    requires st'.versions == st.versions[t := VersionsFor(st, t)[id := v]]
    ensures StringVersions(st')
  {
  }

  lemma EntityCompletes(st: MergeState, t: string, e: Json, p: string, ts: string)
    requires StringVersions(st) && Mergeable(e)
    ensures Apply(st, EntityEv(t, e, p), ts).Some? && StringVersions(Apply(st, EntityEv(t, e, p), ts).value)
  {
    match IdOf(e) {
      case None =>
      case Some(id) =>
        var items, known := ListFor(st, t), VersionsFor(st, t);
        if id !in known {
          MergeEntityInserts(st, t, e, p, ts, id);
          VersionsStayStrings(st, t, id, VersionOf(e), MergeEntity(st, t, e, p, ts).value);
        } else {
          assert known[id].JStr?;
          var c := Compare(VersionOf(e).s, known[id].s);
          if c > 0 && IndexOfId(items, id) < |items| {
            MergeEntityReplaces(st, t, e, p, ts, id);
            VersionsStayStrings(st, t, id, VersionOf(e), MergeEntity(st, t, e, p, ts).value);
          } else {
            MergeEntitySkips(st, t, e, p, ts, id);
          }
        }
    }
  }

  lemma {:induction false} RunCompletes(st: MergeState, evs: seq<Event>, ts: string)
    requires StringVersions(st) && AllSafe(evs)
    ensures Run(st, evs, ts).Some? && StringVersions(Run(st, evs, ts).value)
    decreases |evs|
  {
    if evs != [] {
      var evs0 := evs[..|evs| - 1];
      assert AllSafe(evs0) by {
        forall k | 0 <= k < |evs0| ensures SafeEvent(evs0[k]) { assert evs0[k] == evs[k]; }
      }
      RunCompletes(st, evs0, ts);
      ApplyCompletes(Run(st, evs0, ts).value, evs[|evs| - 1], ts);
    }
  }

  lemma {:induction false} EntityEventsSafe(t: string, xs: seq<Json>, p: string)
    requires forall k :: 0 <= k < |xs| ==> Mergeable(xs[k])
    ensures AllSafe(EntityEvents(t, xs, p))
    decreases |xs|
  {
    if xs != [] {
      var xs0 := xs[..|xs| - 1];
      assert forall k :: 0 <= k < |xs0| ==> xs0[k] == xs[k];
      EntityEventsSafe(t, xs0, p);
      AllSafeAppend(EntityEvents(t, xs0, p), [EntityEv(t, xs[|xs| - 1], p)]);
    }
  }

  lemma {:induction false} TypeEventsSafe(doc: Json, ts: seq<string>, p: string)
    requires MergeableDoc(doc) && forall t :: t in ts ==> t in EntityTypes
    ensures AllSafe(TypeEvents(doc, ts, p))
    decreases |ts|
  {
    if ts != [] {
      var ts0, t := ts[..|ts| - 1], ts[|ts| - 1];
      assert forall u :: u in ts0 ==> u in ts;
      TypeEventsSafe(doc, ts0, p);
      match ListAt(doc, t) {
        case Items(xs) => EntityEventsSafe(t, xs, p);
        case Absent =>
      }
      AllSafeAppend(TypeEvents(doc, ts0, p), ListEvents(doc, t, p));
    }
  }

  lemma DocEventsSafe(src: SourceFile)
    requires Contributes(src) ==> MergeableDoc(src.load.doc)
    ensures AllSafe(DocEvents(src))
  {
    if Contributes(src) {
      TypeEventsSafe(src.load.doc, EntityTypes, src.path);
      AllSafeAppend([FileEv(src.path, src.size), MetaEv(src.load.doc, src.path)], TypeEvents(src.load.doc, EntityTypes, src.path));
    }
  }

  lemma {:induction false} EventsSafe(srcs: seq<SourceFile>)
    requires MergeableSources(srcs)
    ensures AllSafe(Events(srcs))
    decreases |srcs|
  {
    if srcs != [] {
      var s0 := srcs[..|srcs| - 1];
      assert forall i :: 0 <= i < |s0| ==> s0[i] == srcs[i];
      EventsSafe(s0);
      DocEventsSafe(srcs[|srcs| - 1]);
      AllSafeAppend(Events(s0), DocEvents(srcs[|srcs| - 1]));
    }
  }

  /**
   * The merge raises nothing when every document it reads is a dict whose
   * recognised lists hold entities with a hashable id and a string version
   * (or no id at all).
   */
  lemma MergeCompletes(srcs: seq<SourceFile>, ts: string)
    requires MergeableSources(srcs)
    ensures Merge(srcs, ts).Some?
  {
    EventsSafe(srcs);
    RunCompletes(Init(ts), Events(srcs), ts);
  }
}
