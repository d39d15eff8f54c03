/**
 * Folder discovery (`_discover_country_folders`, `_discover_nested_folders`)
 * over a directory tree given as a value. A folder is named by its path
 * relative to the data directory, as a sequence of names; the order of a
 * folder's entries is the order the file system lists them in.
 */
module Discovery {

  datatype Entry = File(name: string) | Folder(name: string, entries: seq<Entry>)

  /** The data directory: missing, or present with its entries. */
  datatype DataDir = Missing | Present(entries: seq<Entry>)

  type Path = seq<string>

  /** The glob pattern `*.json`: any name, hidden ones included, ending in ".json". */
  predicate JsonName(name: string) {
    |name| >= 5 && name[|name| - 5..] == ".json"
  }

  /** `folder.glob("*.json")`: the matching names among the entries, files or folders, in listing order. */
  function JsonMatches(entries: seq<Entry>): (r: seq<string>)
    ensures |r| <= |entries|
    ensures forall k :: 0 <= k < |r| ==> JsonName(r[k])
    ensures |r| == 0 <==> forall i :: 0 <= i < |entries| ==> !JsonName(entries[i].name)
    decreases |entries|
  {
    if entries == [] then []
    else
      var n := |entries| - 1;
      var r := JsonMatches(entries[..n]);
      assert forall i :: 0 <= i < n ==> entries[..n][i] == entries[i];
      r + (if JsonName(entries[n].name) then [entries[n].name] else [])
  }

  // ---------------------------------------------------------------------
  // rglob
  // ---------------------------------------------------------------------

  /** The parent folder of one match that `rglob("*.json")` yields, with that folder's contents. */
  datatype Hit = Hit(folder: Path, dir: Entry)

  /**
   * The parents of the matches `rglob("*.json")` yields under the folder
   * `d` found at `here`: one hit per match directly in `d`, then the hits
   * of each sub-folder in listing order, at any depth.
   */
  function Rglob(d: Entry, here: Path): seq<Hit>
    requires d.Folder?
    decreases d, |d.entries| + 1
  {
    seq(|JsonMatches(d.entries)|, _ => Hit(here, d)) + RglobSubs(d, here, |d.entries|)
  }

  /** The hits of the first `k` entries of `d` that are folders. */
  function RglobSubs(d: Entry, here: Path, k: nat): seq<Hit>
    requires d.Folder? && k <= |d.entries|
    decreases d, k
  {
    if k == 0 then []
    else
      var e := d.entries[k - 1];
      RglobSubs(d, here, k - 1) + (if e.Folder? then Rglob(e, here + [e.name]) else [])
  }

  /** Some hit has `p` as its folder. */
  predicate HitAt(hits: seq<Hit>, p: Path) {
    exists k :: 0 <= k < |hits| && hits[k].folder == p
  }

  /** The folder `d`, found at `here`, or one of its descendants, lies at `p` and directly holds a match. */
  ghost predicate Reaches(d: Entry, here: Path, p: Path)
    requires d.Folder?
    decreases d
  {
    (p == here && |JsonMatches(d.entries)| > 0)
    || exists i :: 0 <= i < |d.entries| && d.entries[i].Folder? && Reaches(d.entries[i], here + [d.entries[i].name], p)
  }

  /** Reaching through the first `k` entries of `d` only. */
  ghost predicate ReachesBelow(d: Entry, here: Path, k: nat, p: Path)
    requires d.Folder? && k <= |d.entries|
  {
    exists i :: 0 <= i < k && d.entries[i].Folder? && Reaches(d.entries[i], here + [d.entries[i].name], p)
  }

  // ---------------------------------------------------------------------
  // _discover_nested_folders
  // ---------------------------------------------------------------------

  /**
   * The loop of `_discover_nested_folders` over the hits: a hit's folder is
   * kept when it is not the scanned folder itself, has not been kept
   * before, and directly holds a match.
   */
  function Collect(hits: seq<Hit>, parent: Path): seq<Path>
    decreases |hits|
  {
    if hits == [] then []
    else
      var kept := Collect(hits[..|hits| - 1], parent);
      var h := hits[|hits| - 1];
      kept + (if h.folder != parent && h.folder !in kept && h.dir.Folder? && |JsonMatches(h.dir.entries)| > 0
              then [h.folder] else [])
  }

  /** `_discover_nested_folders(parent)` for the folder `d` at `parent`. */
  function NestedFolders(d: Entry, parent: Path): seq<Path>
    requires d.Folder?
  {
    Collect(Rglob(d, parent), parent)
  }

  predicate NoDuplicates(ps: seq<Path>) {
    forall i, j :: 0 <= i < j < |ps| ==> ps[i] != ps[j]
  }

  method DiscoverNestedFolders(d: Entry, parent: Path) returns (nested: seq<Path>)
    requires d.Folder?
    ensures nested == NestedFolders(d, parent)
  {
    var hits := Rglob(d, parent);
    nested := [];
    for k := 0 to |hits|
      invariant nested == Collect(hits[..k], parent)
    {
      var h := hits[k];
      assert hits[..k + 1][..k] == hits[..k];
      if h.folder != parent && h.folder !in nested {
        if h.dir.Folder? {
          var jsonCount := |JsonMatches(h.dir.entries)|;
          if jsonCount > 0 {
            nested := nested + [h.folder];
          }
        }
      }
    }
    assert hits[..|hits|] == hits;
  }

  // ---------------------------------------------------------------------
  // _discover_country_folders
  // ---------------------------------------------------------------------

  /**
   * What the first `k` entries of the data directory contribute: a child
   * folder directly holding a match is taken itself, any other child folder
   * contributes its nested folders.
   */
  function CountryOver(entries: seq<Entry>, k: nat): seq<Path>
    requires k <= |entries|
  {
    if k == 0 then []
    else CountryOver(entries, k - 1) + ChildFolders(entries[k - 1])
  }

  function ChildFolders(e: Entry): seq<Path> {
    if !e.Folder? then []
    else if |JsonMatches(e.entries)| > 0 then [[e.name]]
    else NestedFolders(e, [e.name])
  }

  /** `_discover_country_folders()`: nothing when the data directory is missing. */
  function CountryFolders(data: DataDir): seq<Path> {
    if data.Missing? then [] else CountryOver(data.entries, |data.entries|)
  }

  method DiscoverCountryFolders(data: DataDir) returns (countryFolders: seq<Path>)
    ensures countryFolders == CountryFolders(data)
  {
    countryFolders := [];
    if data.Missing? {
      return;
    }
    var entries := data.entries;
    for k := 0 to |entries|
      invariant countryFolders == CountryOver(entries, k)
    {
      var found := DiscoverChild(entries[k]);
      countryFolders := countryFolders + found;
    }
  }

  /** The body of the loop over the data directory, for one entry. */
  method DiscoverChild(item: Entry) returns (found: seq<Path>)
    ensures found == ChildFolders(item)
  {
    found := [];
    if item.Folder? {
      var jsonFiles := JsonMatches(item.entries);
      if |jsonFiles| > 0 {
        found := [[item.name]];
      } else {
        var nested := DiscoverNestedFolders(item, [item.name]);
        if |nested| > 0 {
          found := nested;
        }
      }
    }
  }

  // ---------------------------------------------------------------------
  // Folder keys
  // ---------------------------------------------------------------------

  /** The names of `p` joined by `sep`; the empty path is written ".". */
  function JoinWith(p: Path, sep: char): string
    decreases |p|
  {
    if p == [] then "."
    else if |p| == 1 then p[0]
    else JoinWith(p[..|p| - 1], sep) + [sep] + p[|p| - 1]
  }

  /** `str()` of a relative path on a POSIX system. */
  function Join(p: Path): string {
    JoinWith(p, '/')
  }

  /** `s.replace(c, d)` for a single character `c`. */
  function ReplaceChar(s: string, c: char, d: char): (r: string)
    ensures |r| == |s|
    ensures forall i :: 0 <= i < |s| ==> r[i] == (if s[i] == c then d else s[i])
  {
    seq(|s|, i requires 0 <= i < |s| => if s[i] == c then d else s[i])
  }

  /** The results key of a folder: its relative path with "/" and "\" written "_". */
  function FolderKey(p: Path): (key: string)
    ensures forall i :: 0 <= i < |key| ==> key[i] != '/' && key[i] != '\\'
  {
    ReplaceChar(ReplaceChar(Join(p), '/', '_'), '\\', '_')
  }

  // ---------------------------------------------------------------------
  // What rglob yields
  // ---------------------------------------------------------------------

  lemma HitAtAppend(a: seq<Hit>, b: seq<Hit>, p: Path)
    ensures HitAt(a + b, p) <==> HitAt(a, p) || HitAt(b, p)
  {
    if HitAt(a + b, p) {
      var k :| 0 <= k < |a + b| && (a + b)[k].folder == p;
      if k >= |a| {
        assert b[k - |a|].folder == p;
      }
    }
    if HitAt(b, p) {
      var k :| 0 <= k < |b| && b[k].folder == p;
      assert (a + b)[|a| + k] == b[k];
    }
    if HitAt(a, p) {
      var k :| 0 <= k < |a| && a[k].folder == p;
      assert (a + b)[k] == a[k];
    }
  }

  /** A hit's folder holds a match directly and lies at or below the scanned folder. */
  predicate GoodHit(h: Hit, here: Path) {
    h.dir.Folder? && |JsonMatches(h.dir.entries)| > 0 && here <= h.folder
  }

  lemma {:induction false} RglobGood(d: Entry, here: Path)
    requires d.Folder?
    ensures forall k :: 0 <= k < |Rglob(d, here)| ==> GoodHit(Rglob(d, here)[k], here)
    decreases d, |d.entries| + 1
  {
    RglobSubsGood(d, here, |d.entries|);
  }

  lemma {:induction false} RglobSubsGood(d: Entry, here: Path, k: nat)
    requires d.Folder? && k <= |d.entries|
    ensures forall j :: 0 <= j < |RglobSubs(d, here, k)| ==> GoodHit(RglobSubs(d, here, k)[j], here)
    decreases d, k
  {
    if k > 0 {
      RglobSubsGood(d, here, k - 1);
      var e := d.entries[k - 1];
      if e.Folder? {
        RglobGood(e, here + [e.name]);
        var sub := Rglob(e, here + [e.name]);
        forall j | 0 <= j < |sub|
          ensures GoodHit(sub[j], here)
        {
          assert here <= here + [e.name] <= sub[j].folder;
        }
      }
    }
  }

  /** A folder is the parent of some rglob match exactly when it is reached and holds a match directly. */
  lemma {:induction false} RglobMeaning(d: Entry, here: Path, p: Path)
    requires d.Folder?
    ensures HitAt(Rglob(d, here), p) <==> Reaches(d, here, p)
    decreases d, |d.entries| + 1
  {
    var own := seq(|JsonMatches(d.entries)|, _ => Hit(here, d));
    HitAtAppend(own, RglobSubs(d, here, |d.entries|), p);
    RglobSubsMeaning(d, here, |d.entries|, p);
    if HitAt(own, p) {
      assert p == here;
    }
    if p == here && |JsonMatches(d.entries)| > 0 {
      assert own[0].folder == p;
    }
  }

  lemma {:induction false} RglobSubsMeaning(d: Entry, here: Path, k: nat, p: Path)
    requires d.Folder? && k <= |d.entries|
    ensures HitAt(RglobSubs(d, here, k), p) <==> ReachesBelow(d, here, k, p)
    decreases d, k
  {
    if k > 0 {
      var e := d.entries[k - 1];
      if e.Folder? {
        RglobMeaning(e, here + [e.name], p);
      }
      RglobSubsMeaning(d, here, k - 1, p);
      RglobSubsStep(d, here, k, p);
    }
  }

  /** One more entry: its own hits join the hits of the entries before it. */
  lemma RglobSubsStep(d: Entry, here: Path, k: nat, p: Path)
    requires d.Folder? && 0 < k <= |d.entries|
    requires HitAt(RglobSubs(d, here, k - 1), p) <==> ReachesBelow(d, here, k - 1, p)
    requires var e := d.entries[k - 1];
      e.Folder? ==> (HitAt(Rglob(e, here + [e.name]), p) <==> Reaches(e, here + [e.name], p))
    ensures HitAt(RglobSubs(d, here, k), p) <==> ReachesBelow(d, here, k, p)
  {
    var e := d.entries[k - 1];
    var sub := if e.Folder? then Rglob(e, here + [e.name]) else [];
    var a := RglobSubs(d, here, k - 1);
    assert RglobSubs(d, here, k) == a + sub;
    HitAtAppend(a, sub, p);
    ReachesBelowSnoc(d, here, k, p);
    if !e.Folder? {
      assert !HitAt(sub, p);
    }
  }

  lemma ReachesBelowSnoc(d: Entry, here: Path, k: nat, p: Path)
    requires d.Folder? && 0 < k <= |d.entries|
    ensures ReachesBelow(d, here, k, p) <==>
      ReachesBelow(d, here, k - 1, p)
      || (d.entries[k - 1].Folder? && Reaches(d.entries[k - 1], here + [d.entries[k - 1].name], p))
  {
    if ReachesBelow(d, here, k, p) {
      var i :| 0 <= i < k && d.entries[i].Folder? && Reaches(d.entries[i], here + [d.entries[i].name], p);
      if i < k - 1 {
        assert ReachesBelow(d, here, k - 1, p);
      }
    }
  }

  // ---------------------------------------------------------------------
  // What _discover_nested_folders returns
  // ---------------------------------------------------------------------

  lemma {:induction false} CollectMeaning(hits: seq<Hit>, parent: Path, p: Path)
    requires forall k :: 0 <= k < |hits| ==> GoodHit(hits[k], parent)
    ensures p in Collect(hits, parent) <==> p != parent && HitAt(hits, p)
    ensures NoDuplicates(Collect(hits, parent))
    ensures forall q :: q in Collect(hits, parent) ==> parent < q
    decreases |hits|
  {
    if hits != [] {
      var pre, h := hits[..|hits| - 1], hits[|hits| - 1];
      assert hits == pre + [h];
      CollectMeaning(pre, parent, p);
      HitAtAppend(pre, [h], p);
      assert HitAt([h], p) <==> h.folder == p;
      forall q | q in Collect(pre, parent) + [h.folder] && q != parent
        ensures parent < q
      {
        if q == h.folder {
          assert GoodHit(h, parent);
        } else {
          CollectMeaning(pre, parent, q);
        }
      }
    }
  }

  /**
   * `_discover_nested_folders(parent)` lists each folder strictly below
   * `parent` that directly holds a match, at any depth, and each once.
   */
  lemma NestedMeaning(d: Entry, parent: Path, p: Path)
    requires d.Folder?
    ensures p in NestedFolders(d, parent) <==> p != parent && Reaches(d, parent, p)
    ensures NoDuplicates(NestedFolders(d, parent))
    ensures forall q :: q in NestedFolders(d, parent) ==> parent < q
  {
    RglobGood(d, parent);
    RglobMeaning(d, parent, p);
    CollectMeaning(Rglob(d, parent), parent, p);
  }

  // ---------------------------------------------------------------------
  // What _discover_country_folders returns
  // ---------------------------------------------------------------------

  /** What one child of the data directory contributes, stated over the tree. */
  ghost predicate ChildHolds(e: Entry, p: Path) {
    e.Folder? &&
    if |JsonMatches(e.entries)| > 0 then p == [e.name]
    else p != [e.name] && Reaches(e, [e.name], p)
  }

  lemma ChildMeaning(e: Entry, p: Path)
    ensures p in ChildFolders(e) <==> ChildHolds(e, p)
    ensures NoDuplicates(ChildFolders(e))
    ensures forall q :: q in ChildFolders(e) ==> |q| >= 1 && q[0] == e.name
  {
    if e.Folder? && |JsonMatches(e.entries)| == 0 {
      NestedMeaning(e, [e.name], p);
      forall q | q in ChildFolders(e)
        ensures |q| >= 1 && q[0] == e.name
      {
        assert [e.name] < q;
      }
    }
  }

  /** The concatenation of the first `k` parts. */
  function Concat<T>(parts: seq<seq<T>>, k: nat): seq<T>
    requires k <= |parts|
  {
    if k == 0 then [] else Concat(parts, k - 1) + parts[k - 1]
  }

  lemma {:induction false} ConcatHas<T>(parts: seq<seq<T>>, k: nat, i: nat, x: T)
    requires i < k <= |parts| && x in parts[i]
    ensures x in Concat(parts, k)
  {
    if i < k - 1 {
      ConcatHas(parts, k - 1, i, x);
    }
  }

  lemma {:induction false} ConcatFrom<T>(parts: seq<seq<T>>, k: nat, x: T)
    requires k <= |parts| && x in Concat(parts, k)
    ensures exists i :: 0 <= i < k && x in parts[i]
  {
    if x !in parts[k - 1] {
      ConcatFrom(parts, k - 1, x);
    }
  }

  /** What each child of the data directory contributes. */
  function Parts(entries: seq<Entry>): (r: seq<seq<Path>>)
    ensures |r| == |entries| && forall i :: 0 <= i < |entries| ==> r[i] == ChildFolders(entries[i])
  {
    seq(|entries|, i requires 0 <= i < |entries| => ChildFolders(entries[i]))
  }

  lemma {:induction false} CountryOverConcat(entries: seq<Entry>, k: nat)
    requires k <= |entries|
    ensures CountryOver(entries, k) == Concat(Parts(entries), k)
  {
    if k > 0 {
      CountryOverConcat(entries, k - 1);
    }
  }

  /**
   * A folder is discovered exactly when the data directory exists and the
   * folder is either a child that directly holds a match, or lies strictly
   * below a child that holds none and itself directly holds a match.
   */
  lemma CountryMeaning(data: DataDir, p: Path)
    ensures p in CountryFolders(data) <==>
      data.Present? && exists i :: 0 <= i < |data.entries| && ChildHolds(data.entries[i], p)
  {
    if data.Present? {
      var es := data.entries;
      var parts := Parts(es);
      CountryOverConcat(es, |es|);
      if p in CountryFolders(data) {
        ConcatFrom(parts, |es|, p);
        var i :| 0 <= i < |es| && p in parts[i];
        ChildMeaning(es[i], p);
      }
      if exists i :: 0 <= i < |es| && ChildHolds(es[i], p) {
        var i :| 0 <= i < |es| && ChildHolds(es[i], p);
        ChildMeaning(es[i], p);
        ConcatHas(parts, |es|, i, p);
      }
    }
  }

  predicate DistinctNames(entries: seq<Entry>) {
    forall i, j :: 0 <= i < j < |entries| ==> entries[i].name != entries[j].name
  }

  lemma NoDuplicatesAppend(a: seq<Path>, b: seq<Path>)
    requires NoDuplicates(a) && NoDuplicates(b)
    requires forall x :: x in a ==> x !in b
    ensures NoDuplicates(a + b)
  {
    forall i, j | 0 <= i < j < |a + b|
      ensures (a + b)[i] != (a + b)[j]
    {
      if j >= |a| && i < |a| {
        assert (a + b)[i] in a && (a + b)[j] in b;
      }
    }
  }

  lemma CountryOverDistinct(entries: seq<Entry>, k: nat)
    requires k <= |entries|
    requires DistinctNames(entries)
    ensures NoDuplicates(CountryOver(entries, k))
    ensures forall q :: q in CountryOver(entries, k) ==> |q| >= 1 && exists i :: 0 <= i < k && q[0] == entries[i].name
  {
    var parts := Parts(entries);
    var names := seq(|entries|, i requires 0 <= i < |entries| => entries[i].name);
    forall i | 0 <= i < |parts|
      ensures NoDuplicates(parts[i])
      ensures forall q :: q in parts[i] ==> |q| >= 1 && q[0] == names[i]
    {
      ChildMeaning(entries[i], []);
    }
    CountryOverConcat(entries, k);
    ConcatDistinct(parts, names, k);
  }

  /**
   * Concatenated lists of paths, each without duplicates and each under its
   * own first component, have no duplicates.
   */
  lemma {:induction false} ConcatDistinct(parts: seq<seq<Path>>, names: seq<string>, k: nat)
    requires k <= |parts| == |names|
    requires forall i, j :: 0 <= i < j < |names| ==> names[i] != names[j]
    requires forall i :: 0 <= i < |parts| ==> NoDuplicates(parts[i])
    requires forall i :: 0 <= i < |parts| ==> forall q :: q in parts[i] ==> |q| >= 1 && q[0] == names[i]
    ensures NoDuplicates(Concat(parts, k))
    ensures forall q :: q in Concat(parts, k) ==> |q| >= 1 && exists i :: 0 <= i < k && q[0] == names[i]
  {
    if k > 0 {
      var a, c := Concat(parts, k - 1), parts[k - 1];
      ConcatDistinct(parts, names, k - 1);
      forall x | x in a
        ensures x !in c
      {
        var i :| 0 <= i < k - 1 && x[0] == names[i];
      }
      NoDuplicatesAppend(a, c);
    }
  }

  /** Names within a folder are distinct on a real file system, so no folder is discovered twice. */
  lemma CountryDistinct(data: DataDir)
    requires data.Present? ==> DistinctNames(data.entries)
    ensures NoDuplicates(CountryFolders(data))
  {
    if data.Present? {
      CountryOverDistinct(data.entries, |data.entries|);
    }
  }

  // ---------------------------------------------------------------------
  // Folder keys
  // ---------------------------------------------------------------------

  predicate PlainName(n: string) {
    forall i :: 0 <= i < |n| ==> n[i] != '/' && n[i] != '\\'
  }

  lemma ReplaceCharAppend(a: string, b: string, c: char, d: char)
    ensures ReplaceChar(a + b, c, d) == ReplaceChar(a, c, d) + ReplaceChar(b, c, d)
  {
  }

  lemma ReplaceCharAbsent(s: string, c: char, d: char)
    requires forall i :: 0 <= i < |s| ==> s[i] != c
    ensures ReplaceChar(s, c, d) == s
  {
  }

  /** For names free of separators, the key is the names joined by "_". */
  lemma {:induction false} FolderKeyJoins(p: Path)
    requires forall k :: 0 <= k < |p| ==> PlainName(p[k])
    ensures FolderKey(p) == JoinWith(p, '_')
    decreases |p|
  {
    if |p| == 1 {
      ReplaceCharAbsent(p[0], '/', '_');
      ReplaceCharAbsent(p[0], '\\', '_');
    } else if |p| > 1 {
      var pre, n := p[..|p| - 1], p[|p| - 1];
      FolderKeyJoins(pre);
      var j := JoinWith(pre, '/');
      assert Join(p) == j + "/" + n;
      ReplaceCharAppend(j + "/", n, '/', '_');
      ReplaceCharAppend(j, "/", '/', '_');
      ReplaceCharAbsent(n, '/', '_');
      var j1 := ReplaceChar(j, '/', '_');
      assert ReplaceChar(Join(p), '/', '_') == j1 + "_" + n;
      ReplaceCharAppend(j1 + "_", n, '\\', '_');
      ReplaceCharAppend(j1, "_", '\\', '_');
      ReplaceCharAbsent(n, '\\', '_');
    }
  }

  /** The keys of the folders in the tree the unit tests build, and two folders that share a key. */
  lemma FolderKeyExamples()
    ensures FolderKey(["iran"]) == "iran"
    ensures FolderKey(["uk", "army"]) == "uk_army"
    ensures FolderKey(["uk", "army"]) == FolderKey(["uk_army"])
  {
    FolderKeyJoins(["iran"]);
    FolderKeyJoins(["uk", "army"]);
    FolderKeyJoins(["uk_army"]);
    assert ["uk", "army"][..1] == ["uk"];
  }

  // ---------------------------------------------------------------------
  // The tree the unit tests build
  // ---------------------------------------------------------------------

  /** `data/iran` with three files, `data/uk/army` and `data/uk/navy` with one each. */
  const Army: Entry := Folder("army", [File("army_data.json")])
  const Navy: Entry := Folder("navy", [File("navy_data.json")])
  const Uk: Entry := Folder("uk", [Army, Navy])
  const Iran: Entry := Folder("iran", [File("iran_v1.json"), File("iran_v2.json"), File("invalid.json")])

  lemma JsonSuffix(stem: string)
    ensures JsonName(stem + ".json")
  {
    assert (stem + ".json")[|stem|..] == ".json";
  }

  lemma {:induction false} AllMatch(entries: seq<Entry>)
    requires forall i :: 0 <= i < |entries| ==> JsonName(entries[i].name)
    ensures |JsonMatches(entries)| == |entries|
    decreases |entries|
  {
    if entries != [] {
      AllMatch(entries[..|entries| - 1]);
    }
  }

  lemma OneMatch(stem: string, e: Entry)
    requires e.Folder? && e.entries == [File(stem + ".json")]
    ensures |JsonMatches(e.entries)| == 1
  {
    JsonSuffix(stem);
    AllMatch(e.entries);
  }

  lemma ExampleMatches()
    ensures |JsonMatches(Army.entries)| == 1 && |JsonMatches(Navy.entries)| == 1
    ensures |JsonMatches(Iran.entries)| == 3 && JsonMatches(Uk.entries) == []
  {
    assert "army_data" + ".json" == "army_data.json";
    OneMatch("army_data", Army);
    assert "navy_data" + ".json" == "navy_data.json";
    OneMatch("navy_data", Navy);
    IranMatches();
  }

  lemma IranMatches()
    ensures |JsonMatches(Iran.entries)| == 3
  {
    JsonSuffix("iran_v1");
    assert "iran_v1" + ".json" == "iran_v1.json";
    JsonSuffix("iran_v2");
    assert "iran_v2" + ".json" == "iran_v2.json";
    JsonSuffix("invalid");
    assert "invalid" + ".json" == "invalid.json";
    AllMatch(Iran.entries);
  }

  lemma UkRglob()
    ensures Rglob(Uk, ["uk"]) == [Hit(["uk", "army"], Army), Hit(["uk", "navy"], Navy)]
  {
    ExampleMatches();
    var armyHit, navyHit := Hit(["uk", "army"], Army), Hit(["uk", "navy"], Navy);
    assert Uk.entries[0] == Army && Uk.entries[1] == Navy;
    assert ["uk"] + ["army"] == ["uk", "army"] && ["uk"] + ["navy"] == ["uk", "navy"];
    assert Rglob(Army, ["uk", "army"]) == [armyHit];
    assert Rglob(Navy, ["uk", "navy"]) == [navyHit];
    assert RglobSubs(Uk, ["uk"], 0) == [];
    assert RglobSubs(Uk, ["uk"], 1) == [armyHit];
    assert RglobSubs(Uk, ["uk"], 2) == [armyHit] + [navyHit];
  }

  /** Nested discovery under `uk` finds `army` then `navy`. */
  lemma NestedExample()
    ensures NestedFolders(Uk, ["uk"]) == [["uk", "army"], ["uk", "navy"]]
  {
    UkRglob();
    ExampleMatches();
    var hits := [Hit(["uk", "army"], Army), Hit(["uk", "navy"], Navy)];
    assert hits[..1] == [hits[0]] && hits[..1][..0] == [];
    assert Collect([hits[0]], ["uk"]) == [["uk", "army"]];
    assert ["uk", "navy"] != ["uk", "army"] by { assert ["uk", "navy"][1][0] != ["uk", "army"][1][0]; }
  }

  /** The tree the unit tests build gives three folders: `iran`, `uk/army` and `uk/navy`. */
  lemma DiscoveryExample()
    ensures CountryFolders(Present([Iran, Uk])) == [["iran"], ["uk", "army"], ["uk", "navy"]]
  {
    ExampleMatches();
    NestedExample();
    assert ChildFolders(Iran) == [["iran"]];
    assert CountryOver([Iran, Uk], 1) == [["iran"]];
  }
}
