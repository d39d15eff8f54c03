/**
 * The structural check run before a consolidated document is written
 * (`_validate_json_structure` and `_validate_ies4_compliance`): the external
 * JSON-Schema check, when a schema is loaded, plus one error line per
 * problem found in the entities of the fourteen recognised collections.
 *
 * The schema validator and the ISO 8601 parser are outside the model; they
 * are passed in as functions.
 */
module Validation {
  import opened PyJson
  import opened MergeSpec

  /** The four fields every entity must carry, in the order they are checked. */
  const RequiredFields: seq<string> := ["id", "type", "timestamp", "version"]

  datatype Violation =
    | NotObject(entityType: string, index: nat)
    | MissingField(entityType: string, index: nat, field: string)
    | BadId(entityType: string, index: nat)
    | BadTimestamp(entityType: string, index: nat)

  /** The error line written for a violation. */
  function Message(v: Violation): string {
    var at := v.entityType + "[" + NatToString(v.index) + "]: ";
    match v
    case NotObject(_, _) => at + "Entity must be an object"
    case MissingField(_, _, f) => at + "Missing required field '" + f + "'"
    case BadId(_, _) => at + "Invalid ID format"
    case BadTimestamp(_, _) => at + "Invalid timestamp format"
  }

  /** The error lines of a list of violations, one each, in order. */
  function Messages(vs: seq<Violation>): seq<string> {
    seq(|vs|, k requires 0 <= k < |vs| => Message(vs[k]))
  }

  // ---------------------------------------------------------------------
  // Identifiers and timestamps
  // ---------------------------------------------------------------------

  /** The characters `str.strip()` removes: Python's Unicode whitespace. */
  predicate IsSpace(c: char) {
    || c == ' ' || '\t' <= c <= '\r' || '\U{1C}' <= c <= '\U{1F}'
    || c == '\U{85}' || c == '\U{A0}' || c == '\U{1680}' || '\U{2000}' <= c <= '\U{200A}'
    || c == '\U{2028}' || c == '\U{2029}' || c == '\U{202F}' || c == '\U{205F}' || c == '\U{3000}'
  }

  /** `not s.strip()`: the string is empty or only whitespace. */
  predicate Blank(s: string) {
    forall k :: 0 <= k < |s| ==> IsSpace(s[k])
  }

  /** An id passes when it is a string with something besides whitespace. */
  predicate IdOk(id: Json) {
    id.JStr? && !Blank(id.s)
  }

  /** `s.replace("Z", "+00:00")`. */
  function ReplaceZ(s: string): string
    decreases |s|
  {
    if s == [] then []
    else (if s[0] == 'Z' then "+00:00" else [s[0]]) + ReplaceZ(s[1..])
  }

  /**
   * `_validate_timestamp`: a string that `datetime.fromisoformat` accepts
   * once each "Z" is written "+00:00"; `fromIso` stands for that parser.
   */
  predicate TimestampOk(ts: Json, fromIso: string -> bool) {
    ts.JStr? && fromIso(ReplaceZ(ts.s))
  }

  // ---------------------------------------------------------------------
  // What the loops report
  // ---------------------------------------------------------------------

  /** A "Missing required field" violation per absent field of `fields`, in order. */
  function MissingFields(t: string, i: nat, e: map<string, Json>, fields: seq<string>): seq<Violation>
    decreases |fields|
  {
    if fields == [] then []
    else
      var f := fields[|fields| - 1];
      MissingFields(t, i, e, fields[..|fields| - 1]) + (if f in e then [] else [MissingField(t, i, f)])
  }

  /** The violations of entity number `i` of collection `t`. */
  function EntityViolations(t: string, i: nat, e: Json, fromIso: string -> bool): seq<Violation> {
    if !e.JObj? then [NotObject(t, i)]
    else
      var m := e.fields;
      MissingFields(t, i, m, RequiredFields)
        + (if "id" in m && !IdOk(m["id"]) then [BadId(t, i)] else [])
        + (if "timestamp" in m && !TimestampOk(m["timestamp"], fromIso) then [BadTimestamp(t, i)] else [])
  }

  function ListViolations(t: string, items: seq<Json>, fromIso: string -> bool): seq<Violation>
    decreases |items|
  {
    if items == [] then []
    else
      var n := |items| - 1;
      ListViolations(t, items[..n], fromIso) + EntityViolations(t, n, items[n], fromIso)
  }

  /** The violations of the collections `types` of `data`, collection by collection. */
  function TypesViolations(data: Doc, types: seq<string>, fromIso: string -> bool): seq<Violation>
    decreases |types|
  {
    if types == [] then []
    else
      var t := types[|types| - 1];
      TypesViolations(data, types[..|types| - 1], fromIso) + CollectionViolations(data, t, fromIso)
  }

  /** The violations of collection `t`, when `data` holds it as a list. */
  function CollectionViolations(data: Doc, t: string, fromIso: string -> bool): seq<Violation> {
    if t in data && data[t].JArr? then ListViolations(t, data[t].items, fromIso) else []
  }

  function ComplianceViolations(data: Doc, fromIso: string -> bool): seq<Violation> {
    TypesViolations(data, EntityTypes, fromIso)
  }

  /** The document with `ies4Version` and `specificationDate` filled in when absent; nothing else changes. */
  function Filled(data: Doc): (r: Doc)
    ensures r.Keys == data.Keys + {"ies4Version", "specificationDate"}
    ensures r["ies4Version"] == if "ies4Version" in data then data["ies4Version"] else JStr(Ies4Version)
    ensures r["specificationDate"] == if "specificationDate" in data then data["specificationDate"] else JStr(SpecificationDate)
    ensures forall k :: k in data ==> r[k] == data[k]
  {
    var d1 := if "ies4Version" in data then data else data["ies4Version" := JStr(Ies4Version)];
    if "specificationDate" in d1 then d1 else d1["specificationDate" := JStr(SpecificationDate)]
  }

  // ---------------------------------------------------------------------
  // The meaning of the report
  // ---------------------------------------------------------------------

  /** An entity that passes every check, stated without the loops. */
  predicate EntityValid(e: Json, fromIso: string -> bool) {
    && e.JObj?
    && (forall f :: f in RequiredFields ==> f in e.fields)
    && IdOk(e.fields["id"])
    && TimestampOk(e.fields["timestamp"], fromIso)
  }

  /** Every entity of every recognised collection that is a list passes. */
  predicate DocumentValid(data: Doc, fromIso: string -> bool) {
    forall t, k :: t in EntityTypes && t in data && data[t].JArr? && 0 <= k < |data[t].items|
      ==> EntityValid(data[t].items[k], fromIso)
  }

  lemma {:induction false} MissingFieldsMeaning(t: string, i: nat, e: map<string, Json>, fields: seq<string>)
    ensures forall v :: v in MissingFields(t, i, e, fields) <==>
      exists f :: f in fields && f !in e && v == MissingField(t, i, f)
    ensures MissingFields(t, i, e, fields) == [] <==> forall f :: f in fields ==> f in e
    decreases |fields|
  {
    if fields != [] {
      var pre, f := fields[..|fields| - 1], fields[|fields| - 1];
      MissingFieldsMeaning(t, i, e, pre);
      assert fields == pre + [f];
      forall v | v in MissingFields(t, i, e, pre)
        ensures exists g :: g in fields && g !in e && v == MissingField(t, i, g)
      {
        var g :| g in pre && g !in e && v == MissingField(t, i, g);
        assert g in fields;
      }
      forall g | g in fields && g !in e
        ensures MissingField(t, i, g) in MissingFields(t, i, e, fields)
      {
        if g != f {
          assert g in pre;
        }
      }
    }
  }

  /** The missing-field lines of an entity name exactly its absent required fields, in the checking order. */
  lemma MissingFieldsInOrder(t: string, i: nat, e: map<string, Json>)
    ensures MissingFields(t, i, e, RequiredFields) ==
      (if "id" in e then [] else [MissingField(t, i, "id")])
      + (if "type" in e then [] else [MissingField(t, i, "type")])
      + (if "timestamp" in e then [] else [MissingField(t, i, "timestamp")])
      + (if "version" in e then [] else [MissingField(t, i, "version")])
  {
    var r := RequiredFields;
    MissingFieldsSnoc(t, i, e, [], "id");
    MissingFieldsSnoc(t, i, e, ["id"], "type");
    MissingFieldsSnoc(t, i, e, ["id", "type"], "timestamp");
    MissingFieldsSnoc(t, i, e, ["id", "type", "timestamp"], "version");
    assert [] + ["id"] == ["id"];
    assert ["id"] + ["type"] == ["id", "type"];
    assert ["id", "type"] + ["timestamp"] == ["id", "type", "timestamp"];
    assert ["id", "type", "timestamp"] + ["version"] == r;
  }

  lemma MissingFieldsSnoc(t: string, i: nat, e: map<string, Json>, fields: seq<string>, f: string)
    ensures MissingFields(t, i, e, fields + [f]) ==
      MissingFields(t, i, e, fields) + (if f in e then [] else [MissingField(t, i, f)])
  {
    assert (fields + [f])[..|fields|] == fields;
  }

  /**
   * A non-object entity gets exactly one line; an object gets one line per
   * absent required field, then one for a bad id and one for a bad
   * timestamp when those fields are present; no line at all exactly when
   * the entity is valid.
   */
  lemma EntityViolationsMeaning(t: string, i: nat, e: Json, fromIso: string -> bool)
    ensures !e.JObj? ==> EntityViolations(t, i, e, fromIso) == [NotObject(t, i)]
    ensures e.JObj? ==> forall v :: v in EntityViolations(t, i, e, fromIso) <==>
      || (exists f :: f in RequiredFields && f !in e.fields && v == MissingField(t, i, f))
      || (v == BadId(t, i) && "id" in e.fields && !IdOk(e.fields["id"]))
      || (v == BadTimestamp(t, i) && "timestamp" in e.fields && !TimestampOk(e.fields["timestamp"], fromIso))
    ensures EntityViolations(t, i, e, fromIso) == [] <==> EntityValid(e, fromIso)
  {
    if e.JObj? {
      EntityViolationsMembers(t, i, e.fields, fromIso);
      EntityViolationsEmpty(t, i, e.fields, fromIso);
    }
  }

  /** The three parts of an object's report. */
  lemma EntityViolationsParts(t: string, i: nat, m: map<string, Json>, fromIso: string -> bool)
    ensures EntityViolations(t, i, JObj(m), fromIso) ==
      MissingFields(t, i, m, RequiredFields)
        + (if "id" in m && !IdOk(m["id"]) then [BadId(t, i)] else [])
        + (if "timestamp" in m && !TimestampOk(m["timestamp"], fromIso) then [BadTimestamp(t, i)] else [])
  {
  }

  lemma EntityViolationsMembers(t: string, i: nat, m: map<string, Json>, fromIso: string -> bool)
    ensures forall v :: v in EntityViolations(t, i, JObj(m), fromIso) <==>
      || (exists f :: f in RequiredFields && f !in m && v == MissingField(t, i, f))
      || (v == BadId(t, i) && "id" in m && !IdOk(m["id"]))
      || (v == BadTimestamp(t, i) && "timestamp" in m && !TimestampOk(m["timestamp"], fromIso))
  {
    EntityViolationsParts(t, i, m, fromIso);
    MissingFieldsMeaning(t, i, m, RequiredFields);
  }

  lemma EntityViolationsEmpty(t: string, i: nat, m: map<string, Json>, fromIso: string -> bool)
    ensures EntityViolations(t, i, JObj(m), fromIso) == [] <==> EntityValid(JObj(m), fromIso)
  {
    EntityViolationsParts(t, i, m, fromIso);
    MissingFieldsMeaning(t, i, m, RequiredFields);
    var a := MissingFields(t, i, m, RequiredFields);
    var b := if "id" in m && !IdOk(m["id"]) then [BadId(t, i)] else [];
    var c := if "timestamp" in m && !TimestampOk(m["timestamp"], fromIso) then [BadTimestamp(t, i)] else [];
    assert |a + b + c| == |a| + |b| + |c|;
    if a == [] {
      assert "id" in m && "timestamp" in m by {
        assert "id" in RequiredFields && "timestamp" in RequiredFields;
      }
    }
  }

  lemma {:induction false} ListViolationsMeaning(t: string, items: seq<Json>, fromIso: string -> bool)
    ensures ListViolations(t, items, fromIso) == [] <==> forall k :: 0 <= k < |items| ==> EntityValid(items[k], fromIso)
    decreases |items|
  {
    if items != [] {
      var n := |items| - 1;
      var pre := items[..n];
      ListViolationsMeaning(t, pre, fromIso);
      EntityViolationsMeaning(t, n, items[n], fromIso);
      var a, b := ListViolations(t, pre, fromIso), EntityViolations(t, n, items[n], fromIso);
      assert ListViolations(t, items, fromIso) == a + b;
      assert a + b == [] <==> a == [] && b == [] by {
        assert |a + b| == |a| + |b|;
      }
      if forall k :: 0 <= k < |items| ==> EntityValid(items[k], fromIso) {
        forall k | 0 <= k < n
          ensures EntityValid(pre[k], fromIso)
        {
          assert pre[k] == items[k];
        }
      }
      if a == [] && b == [] {
        forall k | 0 <= k < |items|
          ensures EntityValid(items[k], fromIso)
        {
          if k < n {
            assert pre[k] == items[k];
          }
        }
      }
    }
  }

  lemma {:induction false} TypesViolationsMeaning(data: Doc, types: seq<string>, fromIso: string -> bool)
    ensures TypesViolations(data, types, fromIso) == [] <==>
      forall t, k :: t in types && t in data && data[t].JArr? && 0 <= k < |data[t].items|
        ==> EntityValid(data[t].items[k], fromIso)
    decreases |types|
  {
    if types != [] {
      var pre, t := types[..|types| - 1], types[|types| - 1];
      TypesViolationsMeaning(data, pre, fromIso);
      assert types == pre + [t];
      if t in data && data[t].JArr? {
        ListViolationsMeaning(t, data[t].items, fromIso);
      }
    }
  }

  /** The compliance report is empty exactly when every entity of every recognised list is valid. */
  lemma ComplianceMeaning(data: Doc, fromIso: string -> bool)
    ensures ComplianceViolations(data, fromIso) == [] <==> DocumentValid(data, fromIso)
  {
    TypesViolationsMeaning(data, EntityTypes, fromIso);
  }

  lemma MessagesAppend(a: seq<Violation>, b: seq<Violation>)
    ensures Messages(a + b) == Messages(a) + Messages(b)
  {
  }

  // ---------------------------------------------------------------------
  // The loops
  // ---------------------------------------------------------------------

  /** The error lines of one entity, appended to `errors`. */
  method CheckEntity(t: string, i: nat, e: Json, fromIso: string -> bool, errors: seq<string>) returns (out: seq<string>)
    ensures out == errors + Messages(EntityViolations(t, i, e, fromIso))
  {
    if !e.JObj? {
      out := errors + [Message(NotObject(t, i))];
      return;
    }
    var m := e.fields;
    ghost var a := MissingFields(t, i, m, RequiredFields);
    ghost var b := if "id" in m && !IdOk(m["id"]) then [BadId(t, i)] else [];
    ghost var c := if "timestamp" in m && !TimestampOk(m["timestamp"], fromIso) then [BadTimestamp(t, i)] else [];
    out := CheckRequiredFields(t, i, m, errors);
    if "id" in m && !IdOk(m["id"]) {
      out := out + [Message(BadId(t, i))];
    }
    assert out == errors + Messages(a) + Messages(b);
    if "timestamp" in m && !TimestampOk(m["timestamp"], fromIso) {
      out := out + [Message(BadTimestamp(t, i))];
    }
    assert out == errors + Messages(a) + Messages(b) + Messages(c);
    EntityViolationsParts(t, i, m, fromIso);
    MessagesAppend(a, b);
    MessagesAppend(a + b, c);
  }

  /** The missing-field lines of one entity, in the order of the required fields. */
  method CheckRequiredFields(t: string, i: nat, m: map<string, Json>, errors: seq<string>) returns (out: seq<string>)
    ensures out == errors + Messages(MissingFields(t, i, m, RequiredFields))
  {
    out := errors;
    ghost var vs: seq<Violation> := [];
    for j := 0 to |RequiredFields|
      invariant vs == MissingFields(t, i, m, RequiredFields[..j])
      invariant out == errors + Messages(vs)
    {
      var f := RequiredFields[j];
      assert RequiredFields[..j + 1] == RequiredFields[..j] + [f];
      if f !in m {
        MessagesAppend(vs, [MissingField(t, i, f)]);
        out := out + [Message(MissingField(t, i, f))];
        vs := vs + [MissingField(t, i, f)];
      } else {
        assert vs + [] == vs;
      }
    }
    assert RequiredFields[..|RequiredFields|] == RequiredFields;
  }

  /** The error lines of one collection, entity by entity. */
  method CheckList(t: string, items: seq<Json>, fromIso: string -> bool) returns (errors: seq<string>)
    ensures errors == Messages(ListViolations(t, items, fromIso))
  {
    errors := [];
    for i := 0 to |items|
      invariant errors == Messages(ListViolations(t, items[..i], fromIso))
    {
      assert items[..i + 1][..i] == items[..i];
      MessagesAppend(ListViolations(t, items[..i], fromIso), EntityViolations(t, i, items[i], fromIso));
      errors := CheckEntity(t, i, items[i], fromIso, errors);
    }
    assert items[..|items|] == items;
  }

  /**
   * `_validate_ies4_compliance(data)`: the error lines, in the order the
   * loops find them, and the document with its two version fields filled in.
   */
  method ValidateCompliance(data: Doc, fromIso: string -> bool) returns (errors: seq<string>, filled: Doc)
    ensures filled == Filled(data)
    ensures errors == Messages(ComplianceViolations(data, fromIso))
  {
    filled := data;
    if "ies4Version" !in filled {
      filled := filled["ies4Version" := JStr(Ies4Version)];
    }
    if "specificationDate" !in filled {
      filled := filled["specificationDate" := JStr(SpecificationDate)];
    }
    errors := [];
    for k := 0 to |EntityTypes|
      invariant errors == Messages(TypesViolations(data, EntityTypes[..k], fromIso))
    {
      var t := EntityTypes[k];
      ghost var before := TypesViolations(data, EntityTypes[..k], fromIso);
      assert EntityTypes[..k + 1][..k] == EntityTypes[..k];
      if t in data && data[t].JArr? {
        var listErrors := CheckList(t, data[t].items, fromIso);
        MessagesAppend(before, ListViolations(t, data[t].items, fromIso));
        errors := errors + listErrors;
      } else {
        assert before + [] == before;
      }
    }
    assert EntityTypes[..|EntityTypes|] == EntityTypes;
  }

  // ---------------------------------------------------------------------
  // The whole check
  // ---------------------------------------------------------------------

  /** How the external JSON-Schema validator ends on a document. */
  datatype SchemaOutcome = Conforms | ValidationError(message: string) | OtherError(text: string)

  /**
   * The schema lines: none without a (truthy) schema, otherwise one line
   * when the external validator raises.
   */
  function SchemaMessages(data: Doc, schema: Option<Json>, validate: (Doc, Json) -> SchemaOutcome): (r: seq<string>)
    ensures |r| <= 1
    ensures r == [] <==> schema.None? || !Truthy(schema.value) || validate(data, schema.value).Conforms?
  {
    if schema.Some? && Truthy(schema.value) then
      match validate(data, schema.value)
      case Conforms => []
      case ValidationError(m) => ["Schema validation: " + m]
      case OtherError(x) => ["Schema error: " + x]
    else []
  }

  /**
   * `_validate_json_structure(data)`: true exactly when the schema (if any)
   * accepts the document and every entity of every recognised collection
   * is valid; the document comes back with its version fields filled in.
   */
  method ValidateStructure(data: Doc, schema: Option<Json>, validate: (Doc, Json) -> SchemaOutcome,
                           fromIso: string -> bool)
    returns (ok: bool, filled: Doc)
    ensures ok <==> SchemaMessages(data, schema, validate) == [] && DocumentValid(data, fromIso)
    ensures filled == Filled(data)
  {
    var schemaErrors := SchemaMessages(data, schema, validate);
    var complianceErrors;
    complianceErrors, filled := ValidateCompliance(data, fromIso);
    var all := schemaErrors + complianceErrors;
    ok := |all| == 0;
    ComplianceMeaning(data, fromIso);
  }

  // ---------------------------------------------------------------------
  // The two documents of the compliance test
  // ---------------------------------------------------------------------

  /**
   * A tank with all four fields and an ISO timestamp passes; a vehicle with
   * only an id gets three "Missing required field" lines, for type,
   * timestamp and version.
   */
  lemma ComplianceExamples(fromIso: string -> bool)
    requires fromIso("2024-12-01T10:00:00+00:00")
    ensures var tank := JObj(map["id" := JStr("test-001"), "type" := JStr("Tank"),
                                 "timestamp" := JStr("2024-12-01T10:00:00Z"), "version" := JStr("1.0")]);
      ComplianceViolations(map["vehicles" := JArr([tank])], fromIso) == []
    ensures var bare := JObj(map["id" := JStr("test-001")]);
      ComplianceViolations(map["vehicles" := JArr([bare])], fromIso) ==
        [MissingField("vehicles", 0, "type"), MissingField("vehicles", 0, "timestamp"),
         MissingField("vehicles", 0, "version")]
  {
    var tank := JObj(map["id" := JStr("test-001"), "type" := JStr("Tank"),
                         "timestamp" := JStr("2024-12-01T10:00:00Z"), "version" := JStr("1.0")]);
    var bare := JObj(map["id" := JStr("test-001")]);
    TankValid(tank, fromIso);
    OnlyVehicles(map["vehicles" := JArr([tank])], fromIso, JArr([tank]));
    SingleList("vehicles", tank, fromIso);
    EntityViolationsMeaning("vehicles", 0, tank, fromIso);
    OnlyVehicles(map["vehicles" := JArr([bare])], fromIso, JArr([bare]));
    SingleList("vehicles", bare, fromIso);
    BareViolations(bare, fromIso);
  }

  lemma TankValid(tank: Json, fromIso: string -> bool)
    requires fromIso("2024-12-01T10:00:00+00:00")
    requires tank == JObj(map["id" := JStr("test-001"), "type" := JStr("Tank"),
                              "timestamp" := JStr("2024-12-01T10:00:00Z"), "version" := JStr("1.0")])
    ensures EntityValid(tank, fromIso)
  {
    var m := tank.fields;
    assert forall f :: f in RequiredFields ==> f in m;
    assert m["id"] == JStr("test-001") && m["timestamp"] == JStr("2024-12-01T10:00:00Z");
    ExampleTimestamp();
    ExampleId();
  }

  lemma ExampleTimestamp()
    ensures ReplaceZ("2024-12-01T10:00:00Z") == "2024-12-01T10:00:00+00:00"
  {
    var date := "2024-12-01T10:00:00";
    assert 'Z' !in date;
    ReplaceTrailingZ(date);
    assert date + "Z" == "2024-12-01T10:00:00Z";
    assert date + "+00:00" == "2024-12-01T10:00:00+00:00";
  }

  /** Replacing "Z" leaves a string without one alone and rewrites a final "Z". */
  lemma {:induction false} ReplaceTrailingZ(s: string)
    requires 'Z' !in s
    ensures ReplaceZ(s + "Z") == s + "+00:00"
    decreases |s|
  {
    if s == [] {
      assert [] + "Z" == "Z";
      assert "Z"[1..] == [];
    } else {
      assert (s + "Z")[0] == s[0];
      assert (s + "Z")[1..] == s[1..] + "Z";
      ReplaceTrailingZ(s[1..]);
      assert s == [s[0]] + s[1..];
    }
  }

  lemma ExampleId()
    ensures IdOk(JStr("test-001"))
  {
    assert !IsSpace("test-001"[0]);
  }

  lemma BareViolations(bare: Json, fromIso: string -> bool)
    requires bare == JObj(map["id" := JStr("test-001")])
    ensures EntityViolations("vehicles", 0, bare, fromIso) ==
      [MissingField("vehicles", 0, "type"), MissingField("vehicles", 0, "timestamp"),
       MissingField("vehicles", 0, "version")]
  {
    MissingFieldsInOrder("vehicles", 0, bare.fields);
    assert !IsSpace("test-001"[0]);
    assert IdOk(bare.fields["id"]);
  }

  lemma SingleList(t: string, e: Json, fromIso: string -> bool)
    ensures ListViolations(t, [e], fromIso) == EntityViolations(t, 0, e, fromIso)
  {
    assert [e][..0] == [];
  }

  /** When `data` holds only the collection at position `i` of `types`, only that collection reports. */
  lemma {:induction false} TypesOnlyAt(data: Doc, types: seq<string>, i: nat, fromIso: string -> bool)
    requires i < |types|
    requires forall k :: 0 <= k < |types| && k != i ==> types[k] !in data
    ensures TypesViolations(data, types, fromIso) == CollectionViolations(data, types[i], fromIso)
    decreases |types|
  {
    var n := |types| - 1;
    if i == n {
      TypesAbsent(data, types[..n], fromIso);
    } else {
      TypesOnlyAt(data, types[..n], i, fromIso);
    }
  }

  lemma {:induction false} TypesAbsent(data: Doc, types: seq<string>, fromIso: string -> bool)
    requires forall k :: 0 <= k < |types| ==> types[k] !in data
    ensures TypesViolations(data, types, fromIso) == []
    decreases |types|
  {
    if types != [] {
      TypesAbsent(data, types[..|types| - 1], fromIso);
    }
  }

  /** A document whose only recognised collection is `vehicles` reports that list's violations only. */
  lemma OnlyVehicles(data: Doc, fromIso: string -> bool, v: Json)
    requires data == map["vehicles" := v]
    ensures ComplianceViolations(data, fromIso) ==
      if v.JArr? then ListViolations("vehicles", v.items, fromIso) else []
  {
    assert EntityTypes[2] == "vehicles";
    assert forall k :: 0 <= k < |EntityTypes| && k != 2 ==> EntityTypes[k] != "vehicles";
    TypesOnlyAt(data, EntityTypes, 2, fromIso);
  }
}
