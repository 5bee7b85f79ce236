/** The two records the client builds from the vendor's payloads, and their parsers. */
module Records {
  import opened Wrappers
  import opened Payload

  /** A spool. Every field holds whatever the payload carried under its key:
      the parser does not check types. */
  datatype Filament = Filament(
    id: Json,
    uid: Json,
    brand: Json,
    materialId: Json,
    colorName: Json,
    colorHex: Json,
    lengthTotal: Json,
    lengthLeft: Json,
    diameter: Json)

  /** A material type, shared by the spools that reference its id. */
  datatype Material = Material(
    id: Json,
    brand: Json,
    materialType: Json,
    filamentTypeName: Json,
    density: Json)

  /** The keys `SimplyPrintFilament.parse` copies verbatim into a field. */
  const FilamentKeys: seq<string> := ["id", "uid", "brand", "colorName", "colorHex", "total", "left", "dia"]

  /** The field of a spool that the payload key `name` fills. */
  function FilamentField(f: Filament, name: string): Json
    requires name in FilamentKeys
  {
    match name
    case "id" => f.id
    case "uid" => f.uid
    case "brand" => f.brand
    case "colorName" => f.colorName
    case "colorHex" => f.colorHex
    case "total" => f.lengthTotal
    case "left" => f.lengthLeft
    case "dia" => f.diameter
  }

  /** The keys `SimplyPrintMaterial.parse` copies verbatim into a field. */
  const MaterialKeys: seq<string> := ["id", "material_type_name", "filament_type_name", "density"]

  function MaterialField(m: Material, name: string): Json
    requires name in MaterialKeys
  {
    match name
    case "id" => m.id
    case "material_type_name" => m.materialType
    case "filament_type_name" => m.filamentTypeName
    case "density" => m.density
  }

  /** `nested.get(name) if nested is not None else default`: None when the
      nested value is present but not a dict, where Python raises
      AttributeError. */
  function NestedOr(nested: Json, name: string, default: Json): (r: Option<Json>)
    ensures nested.JNull? ==> r == Some(default)
    ensures nested.JObj? ==> r == Some(Get(nested.members, name))
    ensures r.None? <==> !nested.JNull? && !nested.JObj?
  {
    match nested
    case JNull => Some(default)
    case JObj(members) => Some(Get(members, name))
    case _ => None
  }

  /** `SimplyPrintFilament.parse`. None when Python raises AttributeError:
      the payload, or its `type`, is present but not a dict. */
  function ParseFilament(payload: Json): (r: Option<Filament>)
    ensures r.Some? <==> payload.JObj? && (Get(payload.members, "type").JNull? || Get(payload.members, "type").JObj?)
    ensures r.Some? ==> forall name :: name in FilamentKeys ==> FilamentField(r.value, name) == Get(payload.members, name)
    ensures r.Some? && Get(payload.members, "type").JNull? ==> r.value.materialId == JInt(0)
    ensures r.Some? && Get(payload.members, "type").JObj? ==> r.value.materialId == Get(Get(payload.members, "type").members, "id")
  {
    if !payload.JObj? then None
    else
      var fields := payload.members;
      var materialId :- NestedOr(Get(fields, "type"), "id", JInt(0));
      var f := Filament(
        id := Get(fields, "id"),
        uid := Get(fields, "uid"),
        brand := Get(fields, "brand"),
        materialId := materialId,
        colorName := Get(fields, "colorName"),
        colorHex := Get(fields, "colorHex"),
        lengthTotal := Get(fields, "total"),
        lengthLeft := Get(fields, "left"),
        diameter := Get(fields, "dia"));
      assert forall name :: name in FilamentKeys ==> FilamentField(f, name) == Get(fields, name) by {
        forall name | name in FilamentKeys ensures FilamentField(f, name) == Get(fields, name) {
          assert name in {"id", "uid", "brand", "colorName", "colorHex", "total", "left", "dia"};
        }
      }
      Some(f)
  }

  /** `SimplyPrintMaterial.parse`. None when Python raises AttributeError:
      the payload, or its `brand`, is present but not a dict. */
  function ParseMaterial(payload: Json): (r: Option<Material>)
    ensures r.Some? <==> payload.JObj? && (Get(payload.members, "brand").JNull? || Get(payload.members, "brand").JObj?)
    ensures r.Some? ==> forall name :: name in MaterialKeys ==> MaterialField(r.value, name) == Get(payload.members, name)
    ensures r.Some? && Get(payload.members, "brand").JNull? ==> r.value.brand == JStr("")
    ensures r.Some? && Get(payload.members, "brand").JObj? ==> r.value.brand == Get(Get(payload.members, "brand").members, "name")
  {
    if !payload.JObj? then None
    else
      var fields := payload.members;
      var brand :- NestedOr(Get(fields, "brand"), "name", JStr(""));
      var m := Material(
        id := Get(fields, "id"),
        brand := brand,
        materialType := Get(fields, "material_type_name"),
        filamentTypeName := Get(fields, "filament_type_name"),
        density := Get(fields, "density"));
      assert forall name :: name in MaterialKeys ==> MaterialField(m, name) == Get(fields, name) by {
        forall name | name in MaterialKeys ensures MaterialField(m, name) == Get(fields, name) {
          assert name in {"id", "material_type_name", "filament_type_name", "density"};
        }
      }
      Some(m)
  }

  /** The payload the vendor sends for a spool, with the material reference
      nested as `type.id`. */
  function FilamentPayload(f: Filament): Json {
    JObj([
      ("id", f.id), ("uid", f.uid), ("brand", f.brand),
      ("colorName", f.colorName), ("colorHex", f.colorHex),
      ("total", f.lengthTotal), ("left", f.lengthLeft), ("dia", f.diameter),
      ("type", JObj([("id", f.materialId)]))])
  }

  /** The payload the vendor sends for a material type, with the brand nested
      as `brand.name`. */
  function MaterialPayload(m: Material): Json {
    JObj([
      ("id", m.id), ("material_type_name", m.materialType),
      ("filament_type_name", m.filamentTypeName), ("density", m.density),
      ("brand", JObj([("name", m.brand)]))])
  }

  /** Parsing recovers every field of the spool the vendor encoded. */
  lemma FilamentRoundTrip(f: Filament)
    ensures ParseFilament(FilamentPayload(f)) == Some(f)
  {
    var fields := FilamentPayload(f).members;
    GetFirst(fields, "id", 0);
    forall j | 0 <= j < 1 ensures fields[j].0 != "uid" { assert j == 0; }
    GetFirst(fields, "uid", 1);
    forall j | 0 <= j < 2 ensures fields[j].0 != "brand" { assert j == 0 || j == 1; }
    GetFirst(fields, "brand", 2);
    forall j | 0 <= j < 3 ensures fields[j].0 != "colorName" { assert j == 0 || j == 1 || j == 2; }
    GetFirst(fields, "colorName", 3);
    forall j | 0 <= j < 4 ensures fields[j].0 != "colorHex" { assert j == 0 || j == 1 || j == 2 || j == 3; }
    GetFirst(fields, "colorHex", 4);
    forall j | 0 <= j < 5 ensures fields[j].0 != "total" { assert j == 0 || j == 1 || j == 2 || j == 3 || j == 4; }
    GetFirst(fields, "total", 5);
    forall j | 0 <= j < 6 ensures fields[j].0 != "left" { assert j == 0 || j == 1 || j == 2 || j == 3 || j == 4 || j == 5; }
    GetFirst(fields, "left", 6);
    forall j | 0 <= j < 7 ensures fields[j].0 != "dia" { assert j == 0 || j == 1 || j == 2 || j == 3 || j == 4 || j == 5 || j == 6; }
    GetFirst(fields, "dia", 7);
    forall j | 0 <= j < 8 ensures fields[j].0 != "type" { assert j == 0 || j == 1 || j == 2 || j == 3 || j == 4 || j == 5 || j == 6 || j == 7; }
    GetFirst(fields, "type", 8);
  }

  /** Parsing recovers every field of the material the vendor encoded. */
  lemma MaterialRoundTrip(m: Material)
    ensures ParseMaterial(MaterialPayload(m)) == Some(m)
  {
    var fields := MaterialPayload(m).members;
    GetFirst(fields, "id", 0);
    forall j | 0 <= j < 1 ensures fields[j].0 != "material_type_name" { assert j == 0; }
    GetFirst(fields, "material_type_name", 1);
    forall j | 0 <= j < 2 ensures fields[j].0 != "filament_type_name" { assert j == 0 || j == 1; }
    GetFirst(fields, "filament_type_name", 2);
    forall j | 0 <= j < 3 ensures fields[j].0 != "density" { assert j == 0 || j == 1 || j == 2; }
    GetFirst(fields, "density", 3);
    forall j | 0 <= j < 4 ensures fields[j].0 != "brand" { assert j == 0 || j == 1 || j == 2 || j == 3; }
    GetFirst(fields, "brand", 4);
  }

  /** A dict without any of the expected keys still parses: every field is
      null, except the material reference (0) and the brand (""). */
  lemma EmptyPayloadsParse()
    ensures ParseFilament(JObj([])) == Some(Filament(JNull, JNull, JNull, JInt(0), JNull, JNull, JNull, JNull, JNull))
    ensures ParseMaterial(JObj([])) == Some(Material(JNull, JStr(""), JNull, JNull, JNull))
  {
  }
}
