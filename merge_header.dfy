/**
 * The title and description of the merged document.
 *
 * `_preserve_source_metadata` copies a source's title (prefixed with
 * "Consolidated ") and description only while the output title is still the
 * default one. Read from the front, this means: the first loaded document
 * whose title renders to something other than the default decides the title,
 * and the description is the last one given by a document up to and
 * including that one.
 */
module MergeHeader {
  import opened PyJson
  import opened MergeSpec
  import opened MergeProps
  import opened MergeTheorems

  /** The title a document would give the output, when it has one. */
  function Rendering(doc: Json): Option<string> {
    if doc.JObj? && "title" in doc.fields then Some("Consolidated " + TitleText(doc.fields["title"]))
    else None
  }

  /** A document that moves the output title away from the default. */
  predicate Retitles(doc: Json) {
    Rendering(doc).Some? && Rendering(doc).value != DefaultTitle
  }

  predicate Describes(doc: Json) {
    doc.JObj? && "description" in doc.fields
  }

  /** The title decided by the first retitling document, read from the front. */
  function FirstTitle(ms: seq<MetaSource>): (r: string)
    ensures r == DefaultTitle <==> forall k :: 0 <= k < |ms| ==> !Retitles(ms[k].doc)
  {
    if ms == [] then DefaultTitle
    else if Retitles(ms[0].doc) then Rendering(ms[0].doc).value
    else
      var r := FirstTitle(ms[1..]);
      assert forall k :: 1 <= k < |ms| ==> ms[k] == ms[1..][k - 1];
      r
  }

  /**
   * The description after the documents `ms`, starting from `d`: each
   * describing document overrides it, and reading stops after the first
   * retitling document.
   */
  function LastDescription(ms: seq<MetaSource>, d: Json): Json {
    if ms == [] then d
    else
      var d1 := if Describes(ms[0].doc) then ms[0].doc.fields["description"] else d;
      if Retitles(ms[0].doc) then d1 else LastDescription(ms[1..], d1)
  }

  lemma {:induction false} FirstTitleSnoc(ms: seq<MetaSource>, m: MetaSource)
    ensures FirstTitle(ms + [m]) ==
      if FirstTitle(ms) != DefaultTitle then FirstTitle(ms)
      else if Retitles(m.doc) then Rendering(m.doc).value
      else DefaultTitle
    decreases |ms|
  {
    if ms != [] {
      assert (ms + [m])[0] == ms[0];
      assert (ms + [m])[1..] == ms[1..] + [m];
      FirstTitleSnoc(ms[1..], m);
    } else {
      assert [m][1..] == [];
    }
  }

  lemma {:induction false} LastDescriptionSnoc(ms: seq<MetaSource>, m: MetaSource, d: Json)
    ensures LastDescription(ms + [m], d) ==
      if FirstTitle(ms) != DefaultTitle then LastDescription(ms, d)
      else if Describes(m.doc) then m.doc.fields["description"]
      else LastDescription(ms, d)
    decreases |ms|
  {
    if ms != [] {
      assert (ms + [m])[0] == ms[0];
      assert (ms + [m])[1..] == ms[1..] + [m];
      var d1 := if Describes(ms[0].doc) then ms[0].doc.fields["description"] else d;
      LastDescriptionSnoc(ms[1..], m, d1);
    } else {
      assert [m][1..] == [];
    }
  }

  lemma MergeEntityKeepsHeader(st: MergeState, t: string, e: Json, p: string, ts: string)
    requires MergeEntity(st, t, e, p, ts).Some?
    ensures MergeEntity(st, t, e, p, ts).value.title == st.title
    ensures MergeEntity(st, t, e, p, ts).value.description == st.description
  {
  }

  /** One step of the fold, as far as title and description are concerned. */
  lemma ApplyHeader(sm: MergeState, ev: Event, ts: string)
    requires Apply(sm, ev, ts).Some?
    ensures var st := Apply(sm, ev, ts).value;
      if ev.MetaEv? && sm.title == DefaultTitle && ev.doc.JObj? then
        && st.title == (if Rendering(ev.doc).Some? then Rendering(ev.doc).value else sm.title)
        && st.description == (if Describes(ev.doc) then ev.doc.fields["description"] else sm.description)
      else st.title == sm.title && st.description == sm.description
  {
    if ev.EntityEv? {
      MergeEntityKeepsHeader(sm, ev.entityType, ev.entity, ev.path, ts);
    }
  }

  lemma {:induction false} RunHeader(evs: seq<Event>, ts: string)
    requires Run(Init(ts), evs, ts).Some?
    ensures Run(Init(ts), evs, ts).value.title == FirstTitle(MetasOf(evs))
    ensures Run(Init(ts), evs, ts).value.description == LastDescription(MetasOf(evs), Init(ts).description)
    decreases |evs|
  {
    if evs != [] {
      var pre, ev := evs[..|evs| - 1], evs[|evs| - 1];
      RunHeader(pre, ts);
      ApplyHeader(Run(Init(ts), pre, ts).value, ev, ts);
      var ms := MetasOf(pre);
      if ev.MetaEv? {
        var m := MetaSource(ev.doc, ev.path);
        assert MetasOf(evs) == ms + [m];
        FirstTitleSnoc(ms, m);
        LastDescriptionSnoc(ms, m, Init(ts).description);
      } else {
        assert MetasOf(evs) == ms + [];
        assert ms + [] == ms;
      }
    }
  }

  /**
   * The merged title is "Consolidated <title>" of the first loaded document
   * whose title renders to something other than the default, or the default
   * when there is none; the description is the last one given by a loaded
   * document up to and including that document, or the generated one.
   */
  lemma MergedHeader(srcs: seq<SourceFile>, ts: string)
    requires Merge(srcs, ts).Some?
    ensures var doc := Merge(srcs, ts).value;
      && "title" in doc && doc["title"] == JStr(FirstTitle(LoadedMetas(srcs)))
      && "description" in doc
      && doc["description"] == LastDescription(LoadedMetas(srcs), JStr("Consolidated database created on " + ts))
  {
    RunHeader(Events(srcs), ts);
    EventsProjections(srcs, ts);
  }

  /** The three behaviours: untitled sources keep the default, the first title wins, a later title is ignored. */
  lemma HeaderExamples(ts: string)
    ensures var plain := MetaSource(JObj(map["description" := JStr("A")]), "a.json");
      var named := MetaSource(JObj(map["title" := JStr("Iran Forces"), "description" := JStr("B")]), "b.json");
      var other := MetaSource(JObj(map["title" := JStr("Other"), "description" := JStr("C")]), "c.json");
      && FirstTitle([plain]) == DefaultTitle
      && FirstTitle([plain, named, other]) == "Consolidated Iran Forces"
      && LastDescription([plain, named, other], JStr(ts)) == JStr("B")
      && LastDescription([plain], JStr(ts)) == JStr("A")
  {
    var plain := MetaSource(JObj(map["description" := JStr("A")]), "a.json");
    var named := MetaSource(JObj(map["title" := JStr("Iran Forces"), "description" := JStr("B")]), "b.json");
    var other := MetaSource(JObj(map["title" := JStr("Other"), "description" := JStr("C")]), "c.json");
    UntitledExample(plain, ts);
    TitledExample(named, other, ts);
    assert [plain, named, other] == [plain] + [named, other];
    SkipUntitled(plain, [named, other], JStr(ts));
  }

  lemma UntitledExample(plain: MetaSource, ts: string)
    requires plain == MetaSource(JObj(map["description" := JStr("A")]), "a.json")
    ensures !Retitles(plain.doc) && Describes(plain.doc)
    ensures FirstTitle([plain]) == DefaultTitle && LastDescription([plain], JStr(ts)) == JStr("A")
  {
  }

  lemma TitledExample(named: MetaSource, other: MetaSource, ts: string)
    requires named == MetaSource(JObj(map["title" := JStr("Iran Forces"), "description" := JStr("B")]), "b.json")
    ensures FirstTitle([named, other]) == "Consolidated Iran Forces"
    ensures LastDescription([named, other], JStr("A")) == JStr("B")
  {
    assert TitleText(JStr("Iran Forces")) == "Iran Forces";
    assert "Consolidated " + "Iran Forces" == "Consolidated Iran Forces";
    assert Rendering(named.doc) == Some("Consolidated Iran Forces");
    assert "Consolidated Iran Forces" != DefaultTitle by {
      assert "Consolidated Iran Forces"[14] != DefaultTitle[14];
    }
  }

  /** A document that neither retitles nor describes passes the reading on, apart from its description. */
  lemma SkipUntitled(m: MetaSource, rest: seq<MetaSource>, d: Json)
    requires !Retitles(m.doc) && Describes(m.doc)
    ensures FirstTitle([m] + rest) == FirstTitle(rest)
    ensures LastDescription([m] + rest, d) == LastDescription(rest, m.doc.fields["description"])
  {
    assert ([m] + rest)[1..] == rest;
  }
}
