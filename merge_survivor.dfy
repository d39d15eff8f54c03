/**
 * Which copy of a repeated id survives the merge.
 *
 * Seen from one collection and one id, the merge is a small machine: the
 * slot is vacant until the id is first met, then holds a stamped copy and
 * the version recorded for it; a later occurrence whose version compares
 * strictly newer replaces both (in place), anything else is skipped. Over
 * well-formed dotted versions this keeps the FIRST occurrence whose version
 * is strictly greatest.
 */
module MergeSurvivor {
  import opened PyJson
  import opened Versions
  import opened MergeSpec
  import opened MergeProps
  import opened MergeTheorems

  datatype Slot = Vacant | Held(entity: Json, recorded: Json)

  /** What a merge state holds for `id` in collection `t`. */
  function SlotOf(st: MergeState, t: string, id: Json): Slot {
    SlotIn(ListFor(st, t), VersionsFor(st, t), id)
  }

  /** The occurrences carrying `id`, in order. */
  function WithId(occ: seq<Occurrence>, id: Json): (r: seq<Occurrence>)
    ensures forall k :: 0 <= k < |r| ==> IdOf(r[k].entity) == Some(id)
    ensures forall o :: o in r <==> o in occ && IdOf(o.entity) == Some(id)
    decreases |occ|
  {
    if occ == [] then []
    else
      var o := occ[|occ| - 1];
      WithId(occ[..|occ| - 1], id) + (if IdOf(o.entity) == Some(id) then [o] else [])
  }

  predicate AllObjects(occ: seq<Occurrence>) {
    forall k :: 0 <= k < |occ| ==> occ[k].entity.JObj?
  }

  /** One more occurrence of the id; None when the two versions cannot be compared. */
  function SlotStep(s: Slot, o: Occurrence, ts: string): Option<Slot>
    requires o.entity.JObj?
  {
    match s
    case Vacant => Some(Held(Stamp(o.entity, o.path, ts), VersionOf(o.entity)))
    case Held(_, v) =>
      var c :- CompareJson(VersionOf(o.entity), v);
      Some(if c > 0 then Held(Replaced(o.entity, o.path, ts, v), VersionOf(o.entity)) else s)
  }

  function SlotRun(s: Slot, occ: seq<Occurrence>, ts: string): Option<Slot>
    requires AllObjects(occ)
    decreases |occ|
  {
    if occ == [] then Some(s)
    else
      var s1 :- SlotRun(s, occ[..|occ| - 1], ts);
      SlotStep(s1, occ[|occ| - 1], ts)
  }

  // ---------------------------------------------------------------------
  // The projection of the merge onto one slot
  // ---------------------------------------------------------------------

  lemma WithIdSnoc(occ: seq<Occurrence>, o: Occurrence, id: Json)
    ensures WithId(occ + [o], id) == WithId(occ, id) + if IdOf(o.entity) == Some(id) then [o] else []
  {
    assert (occ + [o])[..|occ|] == occ;
  }

  lemma SlotRunSnoc(s: Slot, occ: seq<Occurrence>, o: Occurrence, ts: string)
    requires AllObjects(occ) && o.entity.JObj?
    ensures AllObjects(occ + [o])
    ensures SlotRun(s, occ + [o], ts) ==
      match SlotRun(s, occ, ts)
      case None => None
      case Some(s1) => SlotStep(s1, o, ts)
  {
    assert (occ + [o])[..|occ|] == occ;
  }

  function SlotIn(items: seq<Json>, known: map<Json, Json>, id: Json): Slot {
    if id in known && IndexOfId(items, id) < |items| then Held(items[IndexOfId(items, id)], known[id])
    else Vacant
  }

  lemma SlotInsertOther(items: seq<Json>, known: map<Json, Json>, x: Json, id2: Json, v: Json, id: Json)
    requires Tracked(items, known) && id2 != id && IdOf(x) == Some(id2)
    ensures SlotIn(items + [x], known[id2 := v], id) == SlotIn(items, known, id)
  {
    IndexOfIdAppend(items, x, id);
  }

  lemma SlotReplaceOther(items: seq<Json>, known: map<Json, Json>, i2: nat, x: Json, id2: Json, v: Json, id: Json)
    requires i2 < |items| && IdOf(items[i2]) == Some(id2) && id2 != id && IdOf(x) == Some(id2)
    ensures SlotIn(items[i2 := x], known[id2 := v], id) == SlotIn(items, known, id)
  {
    var items' := items[i2 := x];
    forall k | 0 <= k < |items|
      ensures IdOf(items'[k]) == IdOf(items[k])
    {
    }
    IndexOfIdSameIds(items', items, id);
  }

  lemma SlotInsertSame(items: seq<Json>, known: map<Json, Json>, x: Json, v: Json, id: Json)
    requires Tracked(items, known) && id !in known && IdOf(x) == Some(id)
    ensures SlotIn(items, known, id) == Vacant
    ensures SlotIn(items + [x], known[id := v], id) == Held(x, v)
  {
    TrackedUntracked(items, known, id);
    IndexOfIdAppend(items, x, id);
  }

  lemma SlotReplaceSame(items: seq<Json>, known: map<Json, Json>, x: Json, v: Json, id: Json)
    requires Tracked(items, known) && id in known && IdOf(x) == Some(id)
    ensures IndexOfId(items, id) < |items|
    ensures SlotIn(items, known, id) == Held(items[IndexOfId(items, id)], known[id])
    ensures SlotIn(items[IndexOfId(items, id) := x], known[id := v], id) == Held(x, v)
  {
    var i := IndexOfId(items, id);
    var items' := items[i := x];
    forall k | 0 <= k < |items|
      ensures IdOf(items'[k]) == IdOf(items[k])
    {
    }
    IndexOfIdSameIds(items', items, id);
  }

  lemma InvTracked(st: MergeState, t: string)
    requires Inv(st) && t in EntityTypes
    ensures Tracked(ListFor(st, t), VersionsFor(st, t))
  {
  }

  /** An entity of another id: its insertion or replacement does not move or touch this id's entity. */
  lemma OtherIdKeepsSlot(sm: MergeState, t: string, e: Json, p: string, ts: string, id: Json)
    requires Tracked(ListFor(sm, t), VersionsFor(sm, t)) && MergeEntity(sm, t, e, p, ts).Some?
    requires IdOf(e) != Some(id)
    ensures SlotOf(MergeEntity(sm, t, e, p, ts).value, t, id) == SlotOf(sm, t, id)
  {
    var items, known := ListFor(sm, t), VersionsFor(sm, t);
    if IdOf(e).Some? {
      var id2 := IdOf(e).value;
      if id2 !in known {
        MergeEntityInserts(sm, t, e, p, ts, id2);
        SlotInsertOther(items, known, Stamp(e, p, ts), id2, VersionOf(e), id);
      } else if CompareJson(VersionOf(e), known[id2]).value > 0 && IndexOfId(items, id2) < |items| {
        var i2 := IndexOfId(items, id2);
        MergeEntityReplaces(sm, t, e, p, ts, id2);
        SlotReplaceOther(items, known, i2, Replaced(e, p, ts, known[id2]), id2, VersionOf(e), id);
      } else {
        MergeEntitySkips(sm, t, e, p, ts, id2);
      }
    }
  }

  /** An entity of this id: the slot takes one SlotStep. */
  lemma SameIdStepsSlot(sm: MergeState, t: string, e: Json, p: string, ts: string, id: Json)
    requires Tracked(ListFor(sm, t), VersionsFor(sm, t)) && MergeEntity(sm, t, e, p, ts).Some?
    requires IdOf(e) == Some(id)
    ensures SlotStep(SlotOf(sm, t, id), Occurrence(e, p), ts) == Some(SlotOf(MergeEntity(sm, t, e, p, ts).value, t, id))
  {
    var items, known := ListFor(sm, t), VersionsFor(sm, t);
    if id !in known {
      MergeEntityInserts(sm, t, e, p, ts, id);
      SlotInsertSame(items, known, Stamp(e, p, ts), VersionOf(e), id);
    } else {
      SlotReplaceSame(items, known, Replaced(e, p, ts, known[id]), VersionOf(e), id);
      if CompareJson(VersionOf(e), known[id]).value > 0 {
        MergeEntityReplaces(sm, t, e, p, ts, id);
      } else {
        MergeEntitySkips(sm, t, e, p, ts, id);
      }
    }
  }

  lemma ApplySlot(sm: MergeState, ev: Event, ts: string, t: string, id: Json)
    requires Inv(sm) && t in EntityTypes && Apply(sm, ev, ts).Some?
    ensures var st := Apply(sm, ev, ts).value;
      if ev.EntityEv? && ev.entityType == t && IdOf(ev.entity) == Some(id)
      then ev.entity.JObj? && SlotStep(SlotOf(sm, t, id), Occurrence(ev.entity, ev.path), ts) == Some(SlotOf(st, t, id))
      else SlotOf(st, t, id) == SlotOf(sm, t, id)
  {
    if ev.EntityEv? && ev.entityType == t {
      InvTracked(sm, t);
      if IdOf(ev.entity) == Some(id) {
        SameIdStepsSlot(sm, t, ev.entity, ev.path, ts, id);
      } else {
        OtherIdKeepsSlot(sm, t, ev.entity, ev.path, ts, id);
      }
    } else {
      OtherEventKeepsCollection(sm, ev, ts, t);
    }
  }

  /** From the start of a merge, the slot of `id` is the slot machine run over that id's occurrences. */
  lemma {:induction false} RunSlot(evs: seq<Event>, ts: string, t: string, id: Json)
    requires t in EntityTypes && Run(Init(ts), evs, ts).Some?
    ensures Inv(Run(Init(ts), evs, ts).value)
    ensures AllObjects(WithId(EntitiesOf(evs, t), id))
    ensures SlotRun(Vacant, WithId(EntitiesOf(evs, t), id), ts) == Some(SlotOf(Run(Init(ts), evs, ts).value, t, id))
    decreases |evs|
  {
    InitInv(ts);
    if evs != [] {
      var pre, ev := evs[..|evs| - 1], evs[|evs| - 1];
      RunSlot(pre, ts, t, id);
      var sm := Run(Init(ts), pre, ts).value;
      ApplyKeepsInv(sm, ev, ts);
      ApplySlot(sm, ev, ts, t, id);
      var occ := EntitiesOf(pre, t);
      if ev.EntityEv? && ev.entityType == t {
        var o := Occurrence(ev.entity, ev.path);
        assert EntitiesOf(evs, t) == occ + [o];
        WithIdSnoc(occ, o, id);
        if IdOf(ev.entity) == Some(id) {
          SlotRunSnoc(Vacant, WithId(occ, id), o, ts);
        } else {
          assert WithId(occ, id) + [] == WithId(occ, id);
        }
      } else {
        assert EntitiesOf(evs, t) == occ + [];
        assert occ + [] == occ;
      }
    } else {
      assert SlotOf(Init(ts), t, id) == Vacant;
    }
  }

  // ---------------------------------------------------------------------
  // The first strictly newest occurrence
  // ---------------------------------------------------------------------

  /** Every occurrence's version (defaulted to "1.0") is a well-formed dotted number. */
  predicate WellVersioned(occ: seq<Occurrence>) {
    forall k :: 0 <= k < |occ| ==> VersionOf(occ[k].entity).JStr? && WellFormed(VersionOf(occ[k].entity).s)
  }

  function V(o: Occurrence): string {
    if VersionOf(o.entity).JStr? then VersionOf(o.entity).s else ""
  }

  /**
   * Occurrence `w` is strictly newer than every earlier one, and no later
   * one is strictly newer than it.
   */
  predicate FirstNewest(occ: seq<Occurrence>, w: int) {
    && 0 <= w < |occ|
    && (forall k :: 0 <= k < w ==> Compare(V(occ[w]), V(occ[k])) > 0)
    && (forall k :: w < k < |occ| ==> Compare(V(occ[k]), V(occ[w])) <= 0)
  }

  lemma FirstNewestUnique(occ: seq<Occurrence>, w1: int, w2: int)
    requires FirstNewest(occ, w1) && FirstNewest(occ, w2)
    ensures w1 == w2
  {
    if w1 < w2 {
      NewerThanEarlier(occ, w2, w1);
      NotNewerLater(occ, w1, w2);
      assert false;
    } else if w2 < w1 {
      NewerThanEarlier(occ, w1, w2);
      NotNewerLater(occ, w2, w1);
      assert false;
    }
  }

  lemma NewerThanEarlier(occ: seq<Occurrence>, w: int, k: int)
    requires FirstNewest(occ, w) && 0 <= k < w
    ensures Compare(V(occ[w]), V(occ[k])) > 0
  {
  }

  lemma NotNewerLater(occ: seq<Occurrence>, w: int, k: int)
    requires FirstNewest(occ, w) && w < k < |occ|
    ensures Compare(V(occ[k]), V(occ[w])) <= 0
  {
  }

  /** The index the slot machine keeps, computed from the back. */
  ghost function Champion(occ: seq<Occurrence>): (c: nat)
    requires occ != []
    ensures c < |occ|
    decreases |occ|
  {
    if |occ| == 1 then 0
    else
      var c := Champion(occ[..|occ| - 1]);
      if Compare(V(occ[|occ| - 1]), V(occ[c])) > 0 then |occ| - 1 else c
  }

  /** Newer than the champion of a prefix means newer than everything in it. */
  lemma BeatsAll(pre: seq<Occurrence>, c: nat, x: Occurrence)
    requires WellVersioned(pre + [x]) && FirstNewest(pre, c)
    requires Compare(V(x), V(pre[c])) > 0
    ensures forall k :: 0 <= k < |pre| ==> Compare(V(x), V(pre[k])) > 0
  {
    var all := pre + [x];
    assert forall k :: 0 <= k < |pre| ==> all[k] == pre[k];
    assert all[|pre|] == x;
    forall k | 0 <= k < |pre|
      ensures Compare(V(x), V(pre[k])) > 0
    {
      assert WellFormed(V(pre[k])) && WellFormed(V(pre[c])) && WellFormed(V(x)) by {
        assert all[k] == pre[k] && all[c] == pre[c];
      }
      if k < c {
        assert Compare(V(pre[c]), V(pre[k])) > 0;
      } else if k == c {
        CompareReflexive(V(pre[c]));
      } else {
        CompareAntisymmetric(V(pre[k]), V(pre[c]));
      }
      CompareTransitive(V(x), V(pre[c]), V(pre[k]));
    }
  }

  lemma {:induction false} ChampionIsFirstNewest(occ: seq<Occurrence>)
    requires occ != [] && WellVersioned(occ)
    ensures FirstNewest(occ, Champion(occ))
    decreases |occ|
  {
    if |occ| > 1 {
      var n := |occ|;
      var pre, x := occ[..n - 1], occ[n - 1];
      assert occ == pre + [x];
      assert WellVersioned(pre) by {
        assert forall k :: 0 <= k < |pre| ==> pre[k] == occ[k];
      }
      ChampionIsFirstNewest(pre);
      var c := Champion(pre);
      if Compare(V(x), V(pre[c])) > 0 {
        BeatsAll(pre, c, x);
      }
    }
  }

  /**
   * The copy held for occurrence `w`: stamped when it is the first
   * occurrence, otherwise marked as replacing the version of the champion
   * before it.
   */
  ghost function SurvivorAt(occ: seq<Occurrence>, w: nat, ts: string): Json
    requires w < |occ| && occ[w].entity.JObj?
  {
    if w == 0 then Stamp(occ[0].entity, occ[0].path, ts)
    else Replaced(occ[w].entity, occ[w].path, ts, VersionOf(occ[Champion(occ[..w])].entity))
  }

  /** A held slot meets one more occurrence, both versions being strings. */
  lemma SlotStepHeld(e: Json, v: Json, o: Occurrence, ts: string)
    requires o.entity.JObj? && VersionOf(o.entity).JStr? && v.JStr?
    ensures SlotStep(Held(e, v), o, ts) ==
      Some(if Compare(V(o), v.s) > 0 then Held(Replaced(o.entity, o.path, ts, v), VersionOf(o.entity)) else Held(e, v))
  {
  }

  /** The copy held for an occurrence depends only on the occurrences up to it. */
  lemma SurvivorPrefix(occ: seq<Occurrence>, pre: seq<Occurrence>, c: nat, ts: string)
    requires c < |pre| <= |occ| && pre == occ[..|pre|] && occ[c].entity.JObj?
    ensures pre[c] == occ[c]
    ensures SurvivorAt(occ, c, ts) == SurvivorAt(pre, c, ts)
  {
    assert occ[..c] == pre[..c];
  }

  lemma {:induction false} SlotRunChampion(occ: seq<Occurrence>, ts: string)
    requires occ != [] && AllObjects(occ) && WellVersioned(occ)
    ensures var c := Champion(occ);
      SlotRun(Vacant, occ, ts) == Some(Held(SurvivorAt(occ, c, ts), VersionOf(occ[c].entity)))
    decreases |occ|
  {
    var n := |occ|;
    var pre, x := occ[..n - 1], occ[n - 1];
    assert occ == pre + [x];
    if n == 1 {
      assert pre == [];
    } else {
      assert AllObjects(pre) && WellVersioned(pre) by {
        assert forall k :: 0 <= k < |pre| ==> pre[k] == occ[k];
      }
      SlotRunChampion(pre, ts);
      SlotRunSnoc(Vacant, pre, x, ts);
      var c := Champion(pre);
      SurvivorPrefix(occ, pre, c, ts);
      var v := VersionOf(pre[c].entity);
      SlotStepHeld(SurvivorAt(pre, c, ts), v, x, ts);
      assert V(pre[c]) == v.s;
      if Compare(V(x), v.s) > 0 {
        assert Champion(occ) == n - 1;
      } else {
        assert Champion(occ) == c;
      }
    }
  }

  /**
   * Over well-formed versions, the slot of an id met at least once holds the
   * first occurrence whose version is strictly greatest, with that version
   * recorded: a stamped copy when it is the first occurrence, otherwise a
   * copy marked with the version it replaced, which is the first strictly
   * greatest version before it. Such an occurrence always exists and is
   * unique.
   */
  lemma FirstNewestSurvives(occ: seq<Occurrence>, ts: string)
    requires occ != [] && AllObjects(occ) && WellVersioned(occ)
    ensures exists w :: FirstNewest(occ, w)
    ensures forall w :: FirstNewest(occ, w) ==>
      && SlotRun(Vacant, occ, ts).Some?
      && SlotRun(Vacant, occ, ts).value.Held?
      && SlotRun(Vacant, occ, ts).value.recorded == VersionOf(occ[w].entity)
      && (w == 0 ==> SlotRun(Vacant, occ, ts).value.entity == Stamp(occ[0].entity, occ[0].path, ts))
      && (w > 0 ==> exists u :: FirstNewest(occ[..w], u))
      && (forall u :: FirstNewest(occ[..w], u) ==>
            SlotRun(Vacant, occ, ts).value.entity == Replaced(occ[w].entity, occ[w].path, ts, VersionOf(occ[u].entity)))
  {
    ChampionIsFirstNewest(occ);
    forall w | FirstNewest(occ, w)
      ensures
        && SlotRun(Vacant, occ, ts).Some?
        && SlotRun(Vacant, occ, ts).value.Held?
        && SlotRun(Vacant, occ, ts).value.recorded == VersionOf(occ[w].entity)
        && (w == 0 ==> SlotRun(Vacant, occ, ts).value.entity == Stamp(occ[0].entity, occ[0].path, ts))
        && (w > 0 ==> exists u :: FirstNewest(occ[..w], u))
        && (forall u :: FirstNewest(occ[..w], u) ==>
              SlotRun(Vacant, occ, ts).value.entity == Replaced(occ[w].entity, occ[w].path, ts, VersionOf(occ[u].entity)))
    {
      FirstNewestSurvivesAt(occ, w, ts);
    }
  }

  /** Every non-empty prefix of well-versioned occurrences has a first strictly newest one. */
  lemma PrefixNewestExists(occ: seq<Occurrence>, w: int)
    requires WellVersioned(occ) && 0 < w <= |occ|
    ensures exists u :: FirstNewest(occ[..w], u)
  {
    var pre := occ[..w];
    assert forall k :: 0 <= k < |pre| ==> pre[k] == occ[k];
    ChampionIsFirstNewest(pre);
  }

  /** Over well-formed versions the first strictly newest occurrence is the champion. */
  lemma FirstNewestIsChampion(occ: seq<Occurrence>, w: int)
    requires occ != [] && WellVersioned(occ) && FirstNewest(occ, w)
    ensures w == Champion(occ)
  {
    ChampionIsFirstNewest(occ);
    FirstNewestUnique(occ, w, Champion(occ));
  }

  lemma FirstNewestSurvivesAt(occ: seq<Occurrence>, w: int, ts: string)
    requires occ != [] && AllObjects(occ) && WellVersioned(occ) && FirstNewest(occ, w)
    ensures
      && SlotRun(Vacant, occ, ts).Some?
      && SlotRun(Vacant, occ, ts).value.Held?
      && SlotRun(Vacant, occ, ts).value.recorded == VersionOf(occ[w].entity)
      && (w == 0 ==> SlotRun(Vacant, occ, ts).value.entity == Stamp(occ[0].entity, occ[0].path, ts))
      && (w > 0 ==> exists u :: FirstNewest(occ[..w], u))
      && (forall u :: FirstNewest(occ[..w], u) ==>
            SlotRun(Vacant, occ, ts).value.entity == Replaced(occ[w].entity, occ[w].path, ts, VersionOf(occ[u].entity)))
  {
    FirstNewestIsChampion(occ, w);
    SlotRunChampion(occ, ts);
    var x := SurvivorAt(occ, w, ts);
    assert SlotRun(Vacant, occ, ts) == Some(Held(x, VersionOf(occ[w].entity)));
    if w > 0 {
      SurvivorReplaces(occ, w, ts);
      PrefixNewestExists(occ, w);
    }
  }

  /** A later survivor is marked with the version of the first strictly newest occurrence before it. */
  lemma SurvivorReplaces(occ: seq<Occurrence>, w: int, ts: string)
    requires 0 < w < |occ| && AllObjects(occ) && WellVersioned(occ)
    ensures forall u :: FirstNewest(occ[..w], u) ==>
      SurvivorAt(occ, w, ts) == Replaced(occ[w].entity, occ[w].path, ts, VersionOf(occ[u].entity))
  {
    var pre := occ[..w];
    assert WellVersioned(pre) by {
      assert forall k :: 0 <= k < |pre| ==> pre[k] == occ[k];
    }
    forall u | FirstNewest(pre, u)
      ensures SurvivorAt(occ, w, ts) == Replaced(occ[w].entity, occ[w].path, ts, VersionOf(occ[u].entity))
    {
      FirstNewestIsChampion(pre, u);
      assert pre[u] == occ[u];
    }
  }

  /** Whatever the versions, a held entity is a stamped or replacing copy of one occurrence, with its version recorded. */
  lemma {:induction false} SlotProvenance(occ: seq<Occurrence>, ts: string)
    requires AllObjects(occ)
    ensures match SlotRun(Vacant, occ, ts)
      case Some(Held(x, v)) =>
        exists k :: 0 <= k < |occ| && IsCopyOf(x, occ[k], ts) && v == VersionOf(occ[k].entity)
      case _ => true
    decreases |occ|
  {
    if occ != [] {
      var pre, o := occ[..|occ| - 1], occ[|occ| - 1];
      assert occ == pre + [o];
      assert AllObjects(pre) by {
        assert forall k :: 0 <= k < |pre| ==> pre[k] == occ[k];
      }
      SlotProvenance(pre, ts);
      SlotRunSnoc(Vacant, pre, o, ts);
      match SlotRun(Vacant, occ, ts)
      case Some(Held(x, v)) =>
        if SlotRun(Vacant, pre, ts) == Some(Held(x, v)) {
          var k :| 0 <= k < |pre| && IsCopyOf(x, pre[k], ts) && v == VersionOf(pre[k].entity);
          assert occ[k] == pre[k];
        } else {
          assert IsCopyOf(x, occ[|occ| - 1], ts);
        }
      case _ =>
    }
  }

  /**
   * `x` is the stored copy of occurrence `o`: the stamped first insertion, or
   * a replacement carrying the version it superseded.
   */
  predicate IsCopyOf(x: Json, o: Occurrence, ts: string)
    requires o.entity.JObj?
  {
    || x == Stamp(o.entity, o.path, ts)
    || (x.JObj? && "_replacedVersion" in x.fields && x == Replaced(o.entity, o.path, ts, x.fields["_replacedVersion"]))
  }

  // ---------------------------------------------------------------------
  // The merged document
  // ---------------------------------------------------------------------

  lemma MergedList(srcs: seq<SourceFile>, ts: string, t: string)
    requires Merge(srcs, ts).Some? && t in EntityTypes
    ensures var st := MergedState(srcs, ts).value;
      && t in Merge(srcs, ts).value && Merge(srcs, ts).value[t] == JArr(ListFor(st, t))
      && Inv(st)
  {
    var st := MergedState(srcs, ts).value;
    AssembleParts(st, |srcs|, ts, EntityCounts(Collections(st)), t);
    InitInv(ts);
    RunKeepsInv(Init(ts), Events(srcs), ts);
  }

  /** The slot of `id` in the final state of a merge, seen from the merged document. */
  lemma MergedSlot(srcs: seq<SourceFile>, ts: string, t: string, id: Json)
    requires Merge(srcs, ts).Some? && t in EntityTypes
    ensures var st := MergedState(srcs, ts).value;
      && t in Merge(srcs, ts).value && Merge(srcs, ts).value[t] == JArr(ListFor(st, t))
      && Inv(st)
      && AllObjects(WithId(SourceEntities(srcs, t), id))
      && SlotRun(Vacant, WithId(SourceEntities(srcs, t), id), ts) == Some(SlotOf(st, t, id))
  {
    MergedList(srcs, ts, t);
    EntitiesOfEvents(srcs, t);
    RunSlot(Events(srcs), ts, t, id);
  }

  /** A stored entity is what the slot of its own id holds. */
  lemma TrackedSlot(items: seq<Json>, known: map<Json, Json>, k: nat)
    requires Tracked(items, known) && k < |items|
    ensures IdOf(items[k]).Some? && IdOf(items[k]).value in known
    ensures SlotIn(items, known, IdOf(items[k]).value) == Held(items[k], known[IdOf(items[k]).value])
  {
  }

  lemma WithIdMember(occ: seq<Occurrence>, id: Json, i: nat)
    requires i < |WithId(occ, id)|
    ensures exists j :: 0 <= j < |occ| && occ[j] == WithId(occ, id)[i]
  {
    assert WithId(occ, id)[i] in occ;
  }

  /**
   * For an id met in collection `t` of the loaded documents, with
   * well-formed versions: the merged collection holds, at the id's only
   * position, the copy of the first occurrence whose version is strictly
   * greatest.
   */
  lemma MergedSurvivor(srcs: seq<SourceFile>, ts: string, t: string, id: Json, w: nat)
    requires Merge(srcs, ts).Some? && t in EntityTypes
    requires var occ := WithId(SourceEntities(srcs, t), id);
      AllObjects(occ) && WellVersioned(occ) && FirstNewest(occ, w)
    ensures t in Merge(srcs, ts).value && Merge(srcs, ts).value[t].JArr?
    ensures var occ := WithId(SourceEntities(srcs, t), id);
      var items := Merge(srcs, ts).value[t].items;
      && IndexOfId(items, id) < |items|
      && (w == 0 ==> items[IndexOfId(items, id)] == Stamp(occ[0].entity, occ[0].path, ts))
      && (w > 0 ==> exists u :: FirstNewest(occ[..w], u))
      && (forall u :: FirstNewest(occ[..w], u) ==>
            items[IndexOfId(items, id)] == Replaced(occ[w].entity, occ[w].path, ts, VersionOf(occ[u].entity)))
  {
    MergedSlot(srcs, ts, t, id);
    FirstNewestSurvives(WithId(SourceEntities(srcs, t), id), ts);
  }

  /**
   * Every entity in a merged collection is a stamped or replacing copy of an
   * entity met in that collection of the loaded documents, under the same id.
   */
  lemma MergedProvenance(srcs: seq<SourceFile>, ts: string, t: string, k: nat)
    requires Merge(srcs, ts).Some? && t in EntityTypes
    requires t in Merge(srcs, ts).value && Merge(srcs, ts).value[t].JArr?
    requires k < |Merge(srcs, ts).value[t].items|
    ensures var x := Merge(srcs, ts).value[t].items[k];
      var occ := SourceEntities(srcs, t);
      exists j :: 0 <= j < |occ| && occ[j].entity.JObj? && IdOf(occ[j].entity) == IdOf(x) && IsCopyOf(x, occ[j], ts)
  {
    var st := MergedState(srcs, ts).value;
    MergedList(srcs, ts, t);
    var items, known := ListFor(st, t), VersionsFor(st, t);
    var x := items[k];
    InvTracked(st, t);
    TrackedSlot(items, known, k);
    var id := IdOf(x).value;
    MergedSlot(srcs, ts, t, id);
    var sub := WithId(SourceEntities(srcs, t), id);
    SlotProvenance(sub, ts);
    var i :| 0 <= i < |sub| && IsCopyOf(x, sub[i], ts) && known[id] == VersionOf(sub[i].entity);
    WithIdMember(SourceEntities(srcs, t), id, i);
    var occ := SourceEntities(srcs, t);
    var j :| 0 <= j < |occ| && occ[j] == sub[i];
    assert occ[j].entity.JObj? && IdOf(occ[j].entity) == IdOf(x) && IsCopyOf(x, occ[j], ts);
  }

  /** A second occurrence with a strictly newer version replaces the first one's copy. */
  lemma SlotRunNewer(o1: Occurrence, o2: Occurrence, ts: string)
    requires o1.entity.JObj? && o2.entity.JObj?
    requires VersionOf(o1.entity).JStr? && VersionOf(o2.entity).JStr? && Compare(V(o2), V(o1)) > 0
    ensures SlotRun(Vacant, [o1, o2], ts) ==
      Some(Held(Replaced(o2.entity, o2.path, ts, VersionOf(o1.entity)), VersionOf(o2.entity)))
  {
    SlotRunSnoc(Vacant, [], o1, ts);
    assert [] + [o1] == [o1];
    SlotRunSnoc(Vacant, [o1], o2, ts);
    assert [o1] + [o2] == [o1, o2];
    SlotStepHeld(Stamp(o1.entity, o1.path, ts), VersionOf(o1.entity), o2, ts);
  }

  // ---------------------------------------------------------------------
  // The repeated drone of the "iran" folder
  // ---------------------------------------------------------------------

  /**
   * Two files give `iran-drone-001` at "1.0" and then at "2.0" with a new
   * name: the second copy survives, renamed, recording "1.0" as replaced.
   */
  lemma IranDroneExample(ts: string)
    ensures var first := JObj(map["id" := JStr("iran-drone-001"), "version" := JStr("1.0"), "name" := JStr("Shahed-136")]);
      var second := JObj(map["id" := JStr("iran-drone-001"), "version" := JStr("2.0"), "name" := JStr("Shahed-136 Enhanced")]);
      var occ := [Occurrence(first, "iran/iran_v1.json"), Occurrence(second, "iran/iran_v2.json")];
      var kept := Replaced(second, "iran/iran_v2.json", ts, JStr("1.0"));
      && SlotRun(Vacant, occ, ts) == Some(Held(kept, JStr("2.0")))
      && kept.fields["name"] == JStr("Shahed-136 Enhanced")
      && kept.fields["version"] == JStr("2.0")
      && kept.fields["_sourceFiles"] == JArr([JStr("iran/iran_v2.json")])
  {
    var first := JObj(map["id" := JStr("iran-drone-001"), "version" := JStr("1.0"), "name" := JStr("Shahed-136")]);
    var second := JObj(map["id" := JStr("iran-drone-001"), "version" := JStr("2.0"), "name" := JStr("Shahed-136 Enhanced")]);
    var o1, o2 := Occurrence(first, "iran/iran_v1.json"), Occurrence(second, "iran/iran_v2.json");
    assert VersionOf(first) == JStr("1.0") && VersionOf(second) == JStr("2.0");
    CompareTwoOne();
    SlotRunNewer(o1, o2, ts);
  }
}
