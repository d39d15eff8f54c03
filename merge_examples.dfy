/**
 * The "iran" folder of the program's unit tests, merged end to end: a file
 * that does not parse, a file at `ies4Version` "4.1.0" holding one drone,
 * and a "4.3.0" file holding a newer copy of that drone, a second drone and
 * an organisation. The merge keeps two vehicles, the drone at "2.0" under
 * its new name, counts all three files, and records only the first
 * file's deviating version.
 */
module MergeExamples {
  import opened PyJson
  import opened Versions
  import opened MergeSpec
  import opened MergeProps
  import opened MergeTheorems
  import opened MergeSurvivor

  const Bad: string := "iran/invalid.json"
  const V1: string := "iran/iran_v1.json"
  const V2: string := "iran/iran_v2.json"

  const DroneId: Json := JStr("iran-drone-001")
  const MohajerId: Json := JStr("iran-drone-002")
  const IrgcId: Json := JStr("iran-org-001")

  function Entity(id: Json, kind: string, stamp: string, version: string, name: string): Json {
    JObj(map["id" := id, "type" := JStr(kind), "timestamp" := JStr(stamp), "version" := JStr(version), "name" := JStr(name)])
  }

  const DroneOld: Json := Entity(DroneId, "Drone", "2024-11-01T10:00:00Z", "1.0", "Shahed-136")
  const DroneNew: Json := Entity(DroneId, "Drone", "2024-12-01T10:00:00Z", "2.0", "Shahed-136 Enhanced")
  const Mohajer: Json := Entity(MohajerId, "Drone", "2024-12-01T11:00:00Z", "1.0", "Mohajer-10")
  const Irgc: Json := Entity(IrgcId, "MilitaryOrganization", "2024-12-01T09:00:00Z", "1.0", "IRGC")

  /** `iran_v1.json`: one drone, at `ies4Version` "4.1.0". */
  function FirstDoc(drone: Json): Json {
    JObj(map["title" := JStr("Iran Database v1"), "ies4Version" := JStr("4.1.0"), "vehicles" := JArr([drone])])
  }

  /** `iran_v2.json`: two drones and an organisation, at `ies4Version` "4.3.0". */
  function SecondDoc(drone: Json, other: Json, org: Json): Json {
    JObj(map["title" := JStr("Iran Database v2"), "ies4Version" := JStr("4.3.0"),
             "vehicles" := JArr([drone, other]), "organizations" := JArr([org])])
  }

  /** The folder's three files in name order, with whatever sizes they occupy. */
  function Folder(w: Json, x: Json, y: Json, z: Json, n0: nat, n1: nat, n2: nat): seq<SourceFile> {
    [SourceFile(Bad, n0, Failed), SourceFile(V1, n1, Loaded(FirstDoc(w))), SourceFile(V2, n2, Loaded(SecondDoc(x, y, z)))]
  }

  function IranSources(n0: nat, n1: nat, n2: nat): seq<SourceFile> {
    Folder(DroneOld, DroneNew, Mohajer, Irgc, n0, n1, n2)
  }

  /** An entity object with the given id and version. */
  predicate Carries(e: Json, id: Json, v: string) {
    e.JObj? && IdOf(e) == Some(id) && VersionOf(e) == JStr(v)
  }

  lemma Fixture()
    ensures Carries(DroneOld, DroneId, "1.0") && Carries(DroneNew, DroneId, "2.0")
    ensures Carries(Mohajer, MohajerId, "1.0") && Carries(Irgc, IrgcId, "1.0")
    ensures DroneNew.fields["name"] == JStr("Shahed-136 Enhanced")
    ensures MohajerId != DroneId
  {
    assert MohajerId.s[13] != DroneId.s[13];
  }

  // ---------------------------------------------------------------------
  // What the merge reads
  // ---------------------------------------------------------------------

  lemma FirstDocLists(w: Json)
    requires Carries(w, DroneId, "1.0")
    ensures MergeableDoc(FirstDoc(w)) && Truthy(FirstDoc(w))
    ensures ListAt(FirstDoc(w), "vehicles") == Items([w])
  {
    var doc := FirstDoc(w);
    assert "title" in doc.fields;
    forall t, k | t in EntityTypes && ListAt(doc, t).Items? && 0 <= k < |ListAt(doc, t).items|
      ensures Mergeable(ListAt(doc, t).items[k])
    {
      assert t == "vehicles";
    }
  }

  lemma SecondDocLists(x: Json, y: Json, z: Json)
    requires Carries(x, DroneId, "2.0") && Carries(y, MohajerId, "1.0") && Carries(z, IrgcId, "1.0")
    ensures MergeableDoc(SecondDoc(x, y, z)) && Truthy(SecondDoc(x, y, z))
    ensures ListAt(SecondDoc(x, y, z), "vehicles") == Items([x, y])
  {
    var doc := SecondDoc(x, y, z);
    assert "title" in doc.fields;
    forall t, k | t in EntityTypes && ListAt(doc, t).Items? && 0 <= k < |ListAt(doc, t).items|
      ensures Mergeable(ListAt(doc, t).items[k])
    {
      assert t == "vehicles" || t == "organizations";
    }
  }

  lemma Tagged1(a: Json, p: string)
    ensures Tagged([a], p) == [Occurrence(a, p)]
  {
    assert [a][..0] == [];
  }

  lemma Tagged2(a: Json, b: Json, p: string)
    ensures Tagged([a, b], p) == [Occurrence(a, p), Occurrence(b, p)]
  {
    assert [a, b][..1] == [a];
    Tagged1(a, p);
  }

  /** What one more file adds to the loaded files, metadata sources and vehicles. */
  lemma FolderSnoc(srcs: seq<SourceFile>, s: SourceFile, ts: string)
    ensures LoadedFiles(srcs + [s], ts) == LoadedFiles(srcs, ts) + (if Contributes(s) then [FileRecord(s.path, s.size, ts)] else [])
    ensures LoadedMetas(srcs + [s]) == LoadedMetas(srcs) + (if Contributes(s) then [MetaSource(s.load.doc, s.path)] else [])
    ensures SourceEntities(srcs + [s], "vehicles") ==
      SourceEntities(srcs, "vehicles") + (if Contributes(s) then ListEntities(s.load.doc, "vehicles", s.path) else [])
  {
    assert (srcs + [s])[..|srcs|] == srcs;
  }

  /** The folder read file by file: the unreadable file adds nothing. */
  lemma FolderSteps(w: Json, x: Json, y: Json, z: Json, n0: nat, n1: nat, n2: nat, ts: string)
    ensures var srcs := Folder(w, x, y, z, n0, n1, n2);
      && srcs == [] + [srcs[0]] + [srcs[1]] + [srcs[2]]
      && LoadedFiles([] + [srcs[0]], ts) == [] && LoadedMetas([] + [srcs[0]]) == []
      && SourceEntities([] + [srcs[0]], "vehicles") == []
  {
    var srcs := Folder(w, x, y, z, n0, n1, n2);
    FolderSnoc([], srcs[0], ts);
  }

  lemma FolderMergeable(w: Json, x: Json, y: Json, z: Json, n0: nat, n1: nat, n2: nat)
    requires Carries(w, DroneId, "1.0") && Carries(x, DroneId, "2.0")
    requires Carries(y, MohajerId, "1.0") && Carries(z, IrgcId, "1.0")
    ensures MergeableSources(Folder(w, x, y, z, n0, n1, n2))
  {
    FirstDocLists(w);
    SecondDocLists(x, y, z);
  }

  lemma FolderVehicles(w: Json, x: Json, y: Json, z: Json, n0: nat, n1: nat, n2: nat)
    requires Carries(w, DroneId, "1.0") && Carries(x, DroneId, "2.0")
    requires Carries(y, MohajerId, "1.0") && Carries(z, IrgcId, "1.0")
    ensures SourceEntities(Folder(w, x, y, z, n0, n1, n2), "vehicles") == [Occurrence(w, V1), Occurrence(x, V2), Occurrence(y, V2)]
  {
    var srcs := Folder(w, x, y, z, n0, n1, n2);
    FolderSteps(w, x, y, z, n0, n1, n2, "");
    var a, b := [] + [srcs[0]], [] + [srcs[0]] + [srcs[1]];
    FirstDocLists(w);
    SecondDocLists(x, y, z);
    Tagged1(w, V1);
    Tagged2(x, y, V2);
    FolderSnoc(a, srcs[1], "");
    FolderSnoc(b, srcs[2], "");
  }

  lemma FolderFiles(w: Json, x: Json, y: Json, z: Json, n0: nat, n1: nat, n2: nat, ts: string)
    requires Carries(w, DroneId, "1.0") && Carries(x, DroneId, "2.0")
    requires Carries(y, MohajerId, "1.0") && Carries(z, IrgcId, "1.0")
    ensures var srcs := Folder(w, x, y, z, n0, n1, n2);
      && LoadedFiles(srcs, ts) == [FileRecord(V1, n1, ts), FileRecord(V2, n2, ts)]
      && LoadedMetas(srcs) == [MetaSource(FirstDoc(w), V1), MetaSource(SecondDoc(x, y, z), V2)]
  {
    var srcs := Folder(w, x, y, z, n0, n1, n2);
    FolderSteps(w, x, y, z, n0, n1, n2, ts);
    var a, b := [] + [srcs[0]], [] + [srcs[0]] + [srcs[1]];
    FirstDocLists(w);
    SecondDocLists(x, y, z);
    FolderSnoc(a, srcs[1], ts);
    FolderSnoc(b, srcs[2], ts);
  }

  // ---------------------------------------------------------------------
  // The consolidated document
  // ---------------------------------------------------------------------

  lemma DroneFirstSeen(w: Json, x: Json, y: Json)
    requires Carries(w, DroneId, "1.0") && Carries(x, DroneId, "2.0") && Carries(y, MohajerId, "1.0")
    requires MohajerId != DroneId
    ensures FirstSeen([Occurrence(w, V1), Occurrence(x, V2), Occurrence(y, V2)]) == [DroneId, MohajerId]
  {
    var occ := [Occurrence(w, V1), Occurrence(x, V2), Occurrence(y, V2)];
    var o2, o1 := occ[..2], occ[..1];
    assert o2 == [Occurrence(w, V1), Occurrence(x, V2)] && o2[..1] == o1 && o1[..0] == [];
    assert FirstSeen(o1) == [DroneId];
    assert FirstSeen(o2) == [DroneId];
  }

  lemma DroneOccurrences(w: Json, x: Json, y: Json)
    requires Carries(w, DroneId, "1.0") && Carries(x, DroneId, "2.0") && Carries(y, MohajerId, "1.0")
    requires MohajerId != DroneId
    ensures WithId([Occurrence(w, V1), Occurrence(x, V2), Occurrence(y, V2)], DroneId) == [Occurrence(w, V1), Occurrence(x, V2)]
  {
    var occ := [Occurrence(w, V1), Occurrence(x, V2), Occurrence(y, V2)];
    var o2, o1 := occ[..2], occ[..1];
    assert o2 == [Occurrence(w, V1), Occurrence(x, V2)] && o2[..1] == o1 && o1[..0] == [];
    assert WithId(o1, DroneId) == o1;
    assert WithId(o2, DroneId) == o2;
  }

  /** Versions "1.0" and "2.0" are well formed and "2.0" is the newer. */
  lemma DroneVersions(older: string, newer: string)
    requires older == "1.0" && newer == "2.0"
    ensures WellFormed(older) && WellFormed(newer) && Compare(newer, older) > 0
  {
    DigitExamples();
    assert newer == "2" + "." + "0" && older == "1" + "." + "0";
    ParseTwo("2", "0");
    ParseTwo("1", "0");
    CompareTwoOne();
  }

  /** Of two occurrences, the second is the first strictly newest when its version is the greater. */
  lemma SecondNewest(o1: Occurrence, o2: Occurrence)
    requires o1.entity.JObj? && o2.entity.JObj?
    requires VersionOf(o1.entity).JStr? && VersionOf(o2.entity).JStr?
    requires WellFormed(V(o1)) && WellFormed(V(o2)) && Compare(V(o2), V(o1)) > 0
    ensures AllObjects([o1, o2]) && WellVersioned([o1, o2]) && FirstNewest([o1, o2], 1)
    ensures FirstNewest([o1, o2][..1], 0)
  {
    assert [o1, o2][..1] == [o1];
  }

  /** "2.0" is the first strictly greatest version of the drone's two occurrences. */
  lemma DroneNewest(o1: Occurrence, o2: Occurrence)
    requires Carries(o1.entity, DroneId, "1.0") && Carries(o2.entity, DroneId, "2.0")
    ensures AllObjects([o1, o2]) && WellVersioned([o1, o2]) && FirstNewest([o1, o2], 1)
    ensures FirstNewest([o1, o2][..1], 0)
  {
    DroneVersions(V(o1), V(o2));
    SecondNewest(o1, o2);
  }

  /** Two ids, in that order, in a two-item collection whose items all carry ids. */
  lemma TwoIds(items: seq<Json>, a: Json, b: Json)
    requires forall k :: 0 <= k < |items| ==> IdOf(items[k]).Some?
    requires IdList(items) == [a, b] && |items| == 2
    ensures IdOf(items[0]) == Some(a) && IdOf(items[1]) == Some(b)
  {
    var head := items[..1];
    assert head[0] == items[0] && head[..0] == [];
    assert IdList(head) == [IdOf(items[0]).value];
    assert IdList(items) == IdList(head) + [IdOf(items[1]).value];
  }

  lemma IranCompletes(n0: nat, n1: nat, n2: nat, ts: string)
    ensures Merge(IranSources(n0, n1, n2), ts).Some?
  {
    Fixture();
    FolderMergeable(DroneOld, DroneNew, Mohajer, Irgc, n0, n1, n2);
    MergeCompletes(IranSources(n0, n1, n2), ts);
  }

  /** Whatever the sources, the merged document carries the tool's own stamps. */
  lemma AssembleStamps(st: MergeState, n: nat, ts: string, counts: map<string, Json>)
    ensures var doc := Assemble(st, n, ts, counts);
      && doc["ies4Version"] == JStr("4.3.0")
      && doc["specificationDate"] == JStr("2024-12-16")
  {
  }

  lemma MergedStamps(srcs: seq<SourceFile>, ts: string)
    requires Merge(srcs, ts).Some?
    ensures var doc := Merge(srcs, ts).value;
      && doc["ies4Version"] == JStr("4.3.0")
      && doc["specificationDate"] == JStr("2024-12-16")
      && doc["consolidationMetadata"].JObj?
      && doc["consolidationMetadata"].fields["toolVersion"] == JStr("2.0")
  {
    var st := MergedState(srcs, ts).value;
    var counts := EntityCounts(Collections(st));
    assert Merge(srcs, ts).value == Assemble(st, |srcs|, ts, counts);
    AssembleStamps(st, |srcs|, ts, counts);
    AssembleMetadata(st, |srcs|, ts, counts);
    MetadataFields(st, |srcs|, ts, counts);
  }

  lemma IranStamps(n0: nat, n1: nat, n2: nat, ts: string)
    requires Merge(IranSources(n0, n1, n2), ts).Some?
    ensures var doc := Merge(IranSources(n0, n1, n2), ts).value;
      && doc["ies4Version"] == JStr("4.3.0")
      && doc["specificationDate"] == JStr("2024-12-16")
      && doc["consolidationMetadata"].JObj?
      && doc["consolidationMetadata"].fields["toolVersion"] == JStr("2.0")
  {
    MergedStamps(IranSources(n0, n1, n2), ts);
  }

  lemma IranFiles(n0: nat, n1: nat, n2: nat, ts: string)
    requires Merge(IranSources(n0, n1, n2), ts).Some?
    ensures var meta := Merge(IranSources(n0, n1, n2), ts).value["consolidationMetadata"];
      && meta.JObj?
      && meta.fields["sourceFileCount"] == JNum(3)
      && meta.fields["consolidatedFiles"] == JArr([FileRecord(V1, n1, ts), FileRecord(V2, n2, ts)])
  {
    Fixture();
    FolderFiles(DroneOld, DroneNew, Mohajer, Irgc, n0, n1, n2, ts);
    MergedFiles(IranSources(n0, n1, n2), ts);
  }

  /** Only the first file deviates from version 4.3.0. */
  lemma FolderDeviations(w: Json, x: Json, y: Json, z: Json)
    ensures RecordDeviations(map[], [MetaSource(FirstDoc(w), V1), MetaSource(SecondDoc(x, y, z), V2)]) == map[V1 := JStr("4.1.0")]
  {
    var m := [MetaSource(FirstDoc(w), V1), MetaSource(SecondDoc(x, y, z), V2)];
    assert Deviation(FirstDoc(w)) == Some(JStr("4.1.0")) by {
      assert "ies4Version" in FirstDoc(w).fields;
    }
    assert Deviation(SecondDoc(x, y, z)).None? by {
      assert "ies4Version" in SecondDoc(x, y, z).fields;
    }
    assert m[..1][..0] == [] && m[..1][0] == m[0];
    assert RecordDeviations(map[], m[..1]) == map[V1 := JStr("4.1.0")];
  }

  lemma IranDeviations(n0: nat, n1: nat, n2: nat, ts: string)
    requires Merge(IranSources(n0, n1, n2), ts).Some?
    ensures var meta := Merge(IranSources(n0, n1, n2), ts).value["consolidationMetadata"];
      && meta.JObj?
      && "sourceVersions" in meta.fields
      && meta.fields["sourceVersions"] == JObj(map[V1 := JStr("4.1.0")])
  {
    Fixture();
    FolderFiles(DroneOld, DroneNew, Mohajer, Irgc, n0, n1, n2, ts);
    FolderDeviations(DroneOld, DroneNew, Mohajer, Irgc);
    MergedStamps(IranSources(n0, n1, n2), ts);
    MergedSourceVersions(IranSources(n0, n1, n2), ts, V1);
  }

  lemma IranVehicles(n0: nat, n1: nat, n2: nat, ts: string)
    requires Merge(IranSources(n0, n1, n2), ts).Some?
    ensures "vehicles" in Merge(IranSources(n0, n1, n2), ts).value
    ensures var vehicles := Merge(IranSources(n0, n1, n2), ts).value["vehicles"];
      && vehicles.JArr? && |vehicles.items| == 2
      && IdOf(vehicles.items[0]) == Some(DroneId) && IdOf(vehicles.items[1]) == Some(MohajerId)
      && vehicles.items[0] == Replaced(DroneNew, V2, ts, JStr("1.0"))
  {
    var srcs := IranSources(n0, n1, n2);
    Fixture();
    FolderVehicles(DroneOld, DroneNew, Mohajer, Irgc, n0, n1, n2);
    MergedCollection(srcs, ts, "vehicles");
    var occ := [Occurrence(DroneOld, V1), Occurrence(DroneNew, V2), Occurrence(Mohajer, V2)];
    DroneFirstSeen(DroneOld, DroneNew, Mohajer);
    DroneOccurrences(DroneOld, DroneNew, Mohajer);
    var items := Merge(srcs, ts).value["vehicles"].items;
    TwoIds(items, DroneId, MohajerId);
    IndexOfIdIs(items, DroneId, 0);
    DroneNewest(occ[0], occ[1]);
    MergedSurvivor(srcs, ts, "vehicles", DroneId, 1);
  }

  /**
   * The "iran" folder merges without raising into two vehicles: the drone
   * at "2.0" under its new name, recording "1.0" as replaced, then the
   * second drone. All three files are counted though only the two readable
   * ones are recorded, and the "4.1.0" file is listed under `sourceVersions`.
   */
  lemma IranMerge(n0: nat, n1: nat, n2: nat, ts: string)
    ensures Merge(IranSources(n0, n1, n2), ts).Some?
    ensures var doc := Merge(IranSources(n0, n1, n2), ts).value;
      && "vehicles" in doc && doc["vehicles"].JArr?
      && doc["ies4Version"] == JStr("4.3.0")
      && doc["specificationDate"] == JStr("2024-12-16")
    ensures var vehicles := Merge(IranSources(n0, n1, n2), ts).value["vehicles"].items;
      && |vehicles| == 2
      && IdOf(vehicles[0]) == Some(DroneId) && IdOf(vehicles[1]) == Some(MohajerId)
      && vehicles[0] == Replaced(DroneNew, V2, ts, JStr("1.0"))
      && vehicles[0].fields["version"] == JStr("2.0")
      && vehicles[0].fields["name"] == JStr("Shahed-136 Enhanced")
      && vehicles[0].fields["_replacedVersion"] == JStr("1.0")
    ensures var meta := Merge(IranSources(n0, n1, n2), ts).value["consolidationMetadata"];
      && meta.JObj?
      && meta.fields["toolVersion"] == JStr("2.0")
      && meta.fields["sourceFileCount"] == JNum(3)
      && meta.fields["consolidatedFiles"] == JArr([FileRecord(V1, n1, ts), FileRecord(V2, n2, ts)])
      && "sourceVersions" in meta.fields
      && meta.fields["sourceVersions"] == JObj(map[V1 := JStr("4.1.0")])
  {
    IranCompletes(n0, n1, n2, ts);
    IranStamps(n0, n1, n2, ts);
    IranFiles(n0, n1, n2, ts);
    IranDeviations(n0, n1, n2, ts);
    IranVehicles(n0, n1, n2, ts);
    Fixture();
  }
}
