/** Concrete responses and what the client makes of them. */
module Scenarios {
  import opened Wrappers
  import opened Payload
  import opened Text
  import opened Dicts
  import opened Records
  import opened Client

  /** Parsing a one-item collection. */
  lemma EntriesOne<R>(x: Json, check: Json -> Result<(Key, R), Error>)
    ensures Entries([x], check) == if check(x).Success? then Success([check(x).value]) else Failure(check(x).error)
  {
    var r := Entries([x], check);
    assert [x][0] == x;
    if r.Success? {
      assert r.value == [r.value[0]];
    }
  }

  /** Parsing a two-item collection whose first item is good. */
  lemma EntriesTwo<R>(x: Json, y: Json, check: Json -> Result<(Key, R), Error>)
    requires check(x).Success?
    ensures Entries([x, y], check) == if check(y).Success? then Success([check(x).value, check(y).value]) else Failure(check(y).error)
  {
    var r := Entries([x, y], check);
    assert [x, y][0] == x && [x, y][1] == y;
    if r.Success? {
      assert r.value == [r.value[0], r.value[1]];
    }
  }

  /** A server error is reported with its status code, whatever the body. */
  lemma ServerErrorReportsCode(body: Body)
    ensures GetFilaments(Response(500, body)) == Failure(HttpStatus(500))
    ensures GetMaterials(Response(500, body)) == Failure(HttpStatus(500))
    ensures Message(HttpStatus(500)) == Some(StatusPrefix + "500")
  {
    assert Decimal(5) == "5";
    assert Decimal(50) == "50";
    assert Decimal(500) == "500";
  }

  /** A vendor envelope with `status: false` fails both calls with its message. */
  lemma ApplicationErrorCarriesMessage()
    ensures var o := Response(200, Decoded(JObj([("status", JBool(false)), ("message", JStr("token expired"))])));
            && GetFilaments(o) == Failure(ApplicationError(JStr("token expired")))
            && GetMaterials(o) == Failure(ApplicationError(JStr("token expired")))
            && Message(ApplicationError(JStr("token expired"))) == Some("token expired")
  {
    var members := [("status", JBool(false)), ("message", JStr("token expired"))];
    GetFirst(members, "message", 1);
  }

  /** Without a message, or with an empty one, the fixed fallback text is shown. */
  lemma ApplicationErrorFallback(message: Json)
    requires !Truthy(message)
    ensures var o := Response(200, Decoded(JObj([("status", JBool(false)), ("message", message)])));
            && Validate(o) == Failure(ApplicationError(JStr(ApplicationFallback)))
            && Message(Validate(o).error) == Some(ApplicationFallback)
  {
    var members := [("status", JBool(false)), ("message", message)];
    GetFirst(members, "message", 1);
  }

  /** Only the boolean false marks an error envelope: a `status` of 0 is
      passed through (and so is a payload that is not a dict). */
  lemma ZeroStatusIsNoError(rest: seq<(string, Json)>, other: Json)
    requires !other.JObj?
    ensures Validate(Response(200, Decoded(JObj([("status", JInt(0))] + rest)))) == Success(JObj([("status", JInt(0))] + rest))
    ensures Validate(Response(200, Decoded(other))) == Success(other)
  {
    var members := [("status", JInt(0))] + rest;
    GetFirst(members, "status", 0);
  }

  /** A sample spool payload. */
  function SpoolPayload(): Json {
    JObj([("id", JInt(1)), ("uid", JStr("a")), ("brand", JStr("X")), ("colorName", JStr("Red")),
          ("colorHex", JStr("#ff0000")), ("total", JInt(1000)), ("left", JInt(500)),
          ("dia", JReal(1.75)), ("type", JObj([("id", JInt(7))]))])
  }

  /** The sample spool parses to id 1 and material 7. */
  lemma SpoolChecks()
    ensures var r := CheckFilament(SpoolPayload());
            r.Success? && r.value.0 == KNum(1.0) && r.value.1.id == JInt(1) && r.value.1.materialId == JInt(7)
  {
    var members := SpoolPayload().members;
    forall j | 0 <= j < 8 ensures members[j].0 != "type" {
      assert j == 0 || j == 1 || j == 2 || j == 3 || j == 4 || j == 5 || j == 6 || j == 7;
    }
    GetFirst(members, "type", 8);
    GetFirst(members, "id", 0);
  }

  /** A body `{"filament": {...}}` passes validation and yields the dict's values. */
  lemma FilamentBody(collection: seq<(string, Json)>)
    ensures var payload := JObj([("filament", JObj(collection))]);
            && Validate(Response(200, Decoded(payload))) == Success(payload)
            && FilamentItems(payload) == Success(Values(collection))
  {
    var members := [("filament", JObj(collection))];
    GetMissing(members, "status");
    GetFirst(members, "filament", 0);
  }

  /** For such a body, `get_filaments` is the build over the dict's values. */
  lemma FilamentBodyBuild(collection: seq<(string, Json)>)
    ensures GetFilaments(Response(200, Decoded(JObj([("filament", JObj(collection))])))) ==
            BuildIndex(Values(collection), CheckFilament)
  {
    FilamentBody(collection);
  }

  /** Building from one good item stores exactly that item. */
  lemma BuildIndexOne<R>(x: Json, check: Json -> Result<(Key, R), Error>)
    requires check(x).Success?
    ensures BuildIndex([x], check) == Success([check(x).value])
  {
    EntriesOne(x, check);
    assert FromEntries([check(x).value]) == [check(x).value];
  }

  /** One spool whose `type` is material 7 gives a one-entry dict keyed 1. */
  lemma OneSpool()
    ensures var r := GetFilaments(Response(200, Decoded(JObj([("filament", JObj([("1", SpoolPayload())]))]))));
            && r.Success? && |r.value| == 1
            && r.value[0].0 == KNum(1.0)
            && r.value[0].1.id == JInt(1)
            && r.value[0].1.materialId == JInt(7)
  {
    var spool := SpoolPayload();
    SpoolChecks();
    FilamentBodyBuild([("1", spool)]);
    assert Values([("1", spool)]) == [spool];
    BuildIndexOne(spool, CheckFilament);
  }

  /** A body `{"data": [...]}` passes validation and yields its list. */
  lemma DataBody(items: seq<Json>)
    ensures var payload := JObj([("data", JArr(items))]);
            && Validate(Response(200, Decoded(payload))) == Success(payload)
            && MaterialItems(payload) == Success(items)
  {
    var members := [("data", JArr(items))];
    GetMissing(members, "status");
    GetFirst(members, "data", 0);
  }

  /** A sample material payload. */
  function MaterialPayloadExample(): Json {
    JObj([("id", JInt(7)), ("material_type_name", JStr("PLA")), ("filament_type_name", JStr("Standard")),
          ("density", JReal(1.24)), ("brand", JObj([("name", JStr("Acme"))]))])
  }

  /** For such a body, `get_materials` is the build over the list. */
  lemma DataBodyBuild(items: seq<Json>)
    ensures GetMaterials(Response(200, Decoded(JObj([("data", JArr(items))])))) == BuildIndex(items, CheckMaterial)
  {
    DataBody(items);
  }

  /** The sample material is accepted with key 7 and brand Acme. */
  lemma MaterialChecks()
    ensures var r := CheckMaterial(MaterialPayloadExample());
            r.Success? && r.value.0 == KNum(7.0) && r.value.1.brand == JStr("Acme")
  {
    var members := MaterialPayloadExample().members;
    forall j | 0 <= j < 4 ensures members[j].0 != "brand" {
      assert j == 0 || j == 1 || j == 2 || j == 3;
    }
    GetFirst(members, "brand", 4);
    GetFirst(members, "id", 0);
  }

  /** One material with brand Acme gives a one-entry dict keyed 7. */
  lemma OneMaterial()
    ensures var r := GetMaterials(Response(200, Decoded(JObj([("data", JArr([MaterialPayloadExample()]))]))));
            && r.Success? && |r.value| == 1
            && r.value[0].0 == KNum(7.0)
            && r.value[0].1.brand == JStr("Acme")
  {
    MaterialChecks();
    DataBodyBuild([MaterialPayloadExample()]);
    BuildIndexOne(MaterialPayloadExample(), CheckMaterial);
  }

  /** An entry without an id fails the whole call, even after good entries:
      no partial dict comes back. */
  lemma MissingIdFailsAll(good: Json)
    requires CheckMaterial(good).Success?
    ensures GetMaterials(Response(200, Decoded(JObj([("data", JArr([good, JObj([])]))])))) ==
            Failure(MalformedResponse(MaterialWithoutId))
  {
    DataBodyBuild([good, JObj([])]);
    assert ParseMaterial(JObj([])).value.id == JNull;
    assert CheckMaterial(JObj([])) == Failure(MalformedResponse(MaterialWithoutId));
    EntriesTwo(good, JObj([]), CheckMaterial);
  }

  /** Building from two good items with the same key keeps the second. */
  lemma BuildIndexOverwrite<R>(x: Json, y: Json, check: Json -> Result<(Key, R), Error>)
    requires check(x).Success? && check(y).Success? && check(x).value.0 == check(y).value.0
    ensures BuildIndex([x, y], check) == Success([check(y).value])
  {
    EntriesTwo(x, y, check);
    var (k, v) := check(y).value;
    var es := [check(x).value, check(y).value];
    assert es[..1] == [check(x).value];
    var first := FromEntries(es[..1]);
    assert first == [check(x).value];
    var d := Put(first, k, v);
    assert FromEntries(es) == d;
    assert k in Keys(first);
    assert |d| == 1 && d[0].0 == k;
    FindAt(d, 0);
    assert d == [(k, v)];
  }

  /** Two entries with the same id: the later one is kept. */
  lemma DuplicateIdsLastWins(a: Material, b: Material)
    requires a.id == JInt(3) && b.id == JInt(3)
    ensures var r := GetMaterials(Response(200, Decoded(JObj([("data", JArr([MaterialPayload(a), MaterialPayload(b)]))]))));
            r == Success([(KNum(3.0), b)])
  {
    MaterialRoundTrip(a);
    MaterialRoundTrip(b);
    var items := [MaterialPayload(a), MaterialPayload(b)];
    DataBody(items);
    assert CheckMaterial(items[0]) == Success((KNum(3.0), a));
    assert CheckMaterial(items[1]) == Success((KNum(3.0), b));
    BuildIndexOverwrite(items[0], items[1], CheckMaterial);
  }
}
