/** `SimplyPrintClient`: the response validation of `_get` and the two
    collection builders `get_filaments` and `get_materials`. */
module Client {
  import opened Wrappers
  import opened Payload
  import opened Text
  import opened Dicts
  import opened Records

  /** A response body: decoded JSON, or text the JSON decoder rejects. */
  datatype Body = Decoded(json: Json) | Undecodable

  /** What one GET yields: the request failed in transport (timed out, or
      any other connection failure), or a response arrived. */
  datatype Outcome = TransportFail(timedOut: bool) | Response(status: nat, body: Body)

  /** The shape failures of the collection builders. */
  datatype Shape = MissingCollection | FilamentWithoutId | MaterialWithoutId

  /** Every way a fetch fails. All but `Fault` are a `SimplyPrintError`;
      `Fault` stands for the Python exception (AttributeError, TypeError) a
      payload of an unexpected type raises instead. */
  datatype Error =
    | Unreachable(timedOut: bool)
    | HttpStatus(code: nat)
    | InvalidPayload
    | ApplicationError(detail: Json)
    | MalformedResponse(shape: Shape)
    | Fault

  const StatusPrefix := "Failed to retrieve data from SimplyPrint API. Status code: "
  const ApplicationFallback := "SimplyPrint API returned an error."

  /** The text of the `SimplyPrintError` an error raises. None for `Fault`,
      which is no `SimplyPrintError`, and for a vendor message that is not a
      string (Python shows its `str()`, which this model does not render). */
  function Message(e: Error): (text: Option<string>)
    ensures text.None? <==> e.Fault? || (e.ApplicationError? && !e.detail.JStr?)
    ensures e.HttpStatus? ==> && StatusPrefix <= text.value
                              && AllDigits(text.value[|StatusPrefix|..])
                              && DigitsValue(text.value[|StatusPrefix|..]) == e.code
    ensures e.ApplicationError? && e.detail.JStr? ==> text == Some(e.detail.s)
  {
    match e
    case Unreachable(timedOut) =>
      Some(if timedOut then "SimplyPrint API request timed out." else "Failed to connect to SimplyPrint API.")
    case HttpStatus(code) =>
      DecimalRoundTrip(code);
      assert (StatusPrefix + Decimal(code))[|StatusPrefix|..] == Decimal(code);
      Some(StatusPrefix + Decimal(code))
    case InvalidPayload => Some("Invalid JSON response from SimplyPrint API.")
    case ApplicationError(detail) => if detail.JStr? then Some(detail.s) else None
    case MalformedResponse(shape) =>
      Some(match shape
        case MissingCollection => "Unexpected response format from SimplyPrint API."
        case FilamentWithoutId => "Unexpected filament payload from SimplyPrint API."
        case MaterialWithoutId => "Unexpected material payload from SimplyPrint API.")
    case Fault => None
  }

  /** A dict whose `status` is the boolean false; `0`, `null` or a missing
      `status` are not (`status is False`). */
  predicate ErrorEnvelope(j: Json) {
    j.JObj? && Get(j.members, "status") == JBool(false)
  }

  /** The checks `_get` makes of an outcome, in the order it makes them. */
  datatype Check = Transport | Status | Decoding | Envelope

  function Rank(c: Check): nat {
    match c
    case Transport => 0
    case Status => 1
    case Decoding => 2
    case Envelope => 3
  }

  /** Whether check `c`, on its own, rejects the outcome. */
  predicate Fails(o: Outcome, c: Check) {
    match c
    case Transport => o.TransportFail?
    case Status => o.Response? && o.status != 200
    case Decoding => o.Response? && o.body.Undecodable?
    case Envelope => o.Response? && o.body.Decoded? && ErrorEnvelope(o.body.json)
  }

  /** The check an error of `_get` reports. */
  function CheckOf(e: Error): Option<Check> {
    match e
    case Unreachable(_) => Some(Transport)
    case HttpStatus(_) => Some(Status)
    case InvalidPayload => Some(Decoding)
    case ApplicationError(_) => Some(Envelope)
    case _ => None
  }

  /** `_get` after the request: the outcome fails with the error of the first
      check that rejects it, and otherwise hands back the decoded payload. */
  function Validate(o: Outcome): (r: Result<Json, Error>)
    ensures r.Success? <==> forall c :: !Fails(o, c)
    ensures r.Success? ==> o == Response(200, Decoded(r.value))
    ensures r.Failure? ==> CheckOf(r.error).Some? && Fails(o, CheckOf(r.error).value)
                           && forall c :: Rank(c) < Rank(CheckOf(r.error).value) ==> !Fails(o, c)
    ensures o.TransportFail? ==> r == Failure(Unreachable(o.timedOut))
    ensures o.Response? && o.status != 200 ==> r == Failure(HttpStatus(o.status))
    ensures r.Failure? && r.error.ApplicationError? ==>
              var message := Get(o.body.json.members, "message");
              r.error.detail == if Truthy(message) then message else JStr(ApplicationFallback)
  {
    match o
    case TransportFail(timedOut) =>
      assert Fails(o, Transport);
      Failure(Unreachable(timedOut))
    case Response(status, body) =>
      if status != 200 then
        assert Fails(o, Status);
        Failure(HttpStatus(status))
      else match body
        case Undecodable =>
          assert Fails(o, Decoding);
          Failure(InvalidPayload)
        case Decoded(j) =>
          if ErrorEnvelope(j) then
            assert Fails(o, Envelope);
            var message := Get(j.members, "message");
            Failure(ApplicationError(if Truthy(message) then message else JStr(ApplicationFallback)))
          else Success(j)
  }

  /** Parses every item in order and stops at the first that fails: the
      items' (key, record) pairs, or the first item's error. */
  function Entries<R>(items: seq<Json>, check: Json -> Result<(Key, R), Error>): (r: Result<seq<(Key, R)>, Error>)
    ensures r.Success? <==> forall i :: 0 <= i < |items| ==> check(items[i]).Success?
    ensures r.Success? ==> |r.value| == |items| && forall i :: 0 <= i < |items| ==> check(items[i]) == Success(r.value[i])
    ensures r.Failure? ==> exists i :: 0 <= i < |items| && check(items[i]) == Failure(r.error)
                                       && forall j :: 0 <= j < i ==> check(items[j]).Success?
  {
    if |items| == 0 then Success([])
    else
      match check(items[0])
      case Failure(e) => Failure(e)
      case Success(head) =>
        match Entries(items[1..], check)
        case Failure(e) =>
          assert exists i :: 1 <= i < |items| && check(items[i]) == Failure(e)
                             && forall j :: 0 <= j < i ==> check(items[j]).Success? by {
            var i :| 0 <= i < |items[1..]| && check(items[1..][i]) == Failure(e)
                     && forall j :: 0 <= j < i ==> check(items[1..][j]).Success?;
            assert check(items[i + 1]) == Failure(e);
            forall j | 0 <= j < i + 1 ensures check(items[j]).Success? {
              if j > 0 {
                assert items[j] == items[1..][j - 1];
              }
            }
          }
          Failure(e)
        case Success(rest) =>
          assert forall i :: 1 <= i < |items| ==> check(items[i]) == Success(([head] + rest)[i]) by {
            forall i | 1 <= i < |items| ensures check(items[i]) == Success(([head] + rest)[i]) {
              assert items[i] == items[1..][i - 1];
            }
          }
          Success([head] + rest)
  }

  /** The loop of a collection builder: every item parsed, then each record
      stored under its key in a dict, a later key overwriting an earlier one. */
  function BuildIndex<R>(items: seq<Json>, check: Json -> Result<(Key, R), Error>): (r: Result<Dict<Key, R>, Error>)
    ensures r.Success? <==> forall i :: 0 <= i < |items| ==> check(items[i]).Success?
    ensures r.Failure? ==> exists i :: 0 <= i < |items| && check(items[i]) == Failure(r.error)
                                       && forall j :: 0 <= j < i ==> check(items[j]).Success?
    ensures r.Success? ==> DistinctKeys(r.value)
    ensures r.Success? ==> forall k :: k in Keys(r.value) <==>
                             exists i :: 0 <= i < |items| && check(items[i]).Success? && check(items[i]).value.0 == k
  {
    var entries :- Entries(items, check);
    var d := FromEntries(entries);
    assert forall k :: k in Keys(d) <==>
             exists i :: 0 <= i < |items| && check(items[i]).Success? && check(items[i]).value.0 == k by {
      forall k ensures k in Keys(d) ==> exists i :: 0 <= i < |items| && check(items[i]).Success? && check(items[i]).value.0 == k {
        if k in Keys(d) {
          var i :| 0 <= i < |entries| && entries[i].0 == k;
          assert check(items[i]) == Success(entries[i]);
        }
      }
      forall k, i | 0 <= i < |items| && check(items[i]).Success? && check(items[i]).value.0 == k ensures k in Keys(d) {
        assert entries[i].0 == k;
      }
    }
    Success(d)
  }

  /** A successful build stores, under every key, the record of the last
      item that carries the key. */
  lemma BuildIndexLastWrite<R>(items: seq<Json>, check: Json -> Result<(Key, R), Error>, j: nat)
    requires BuildIndex(items, check).Success? && j < |BuildIndex(items, check).value|
    ensures var d := BuildIndex(items, check).value;
            exists i :: 0 <= i < |items| && check(items[i]) == Success(d[j])
                        && forall i' :: i < i' < |items| ==> check(items[i']).value.0 != d[j].0
  {
    var entries := Entries(items, check).value;
    var d := FromEntries(entries);
    assert d == BuildIndex(items, check).value;
    var k := d[j].0;
    assert k in Keys(d);
    FromEntriesLastWrite(entries, k);
    FindAt(d, j);
    var i :| 0 <= i < |entries| && entries[i] == (k, d[j].1) && forall i' :: i < i' < |entries| ==> entries[i'].0 != k;
    assert check(items[i]) == Success(d[j]);
    forall i' | i < i' < |items| ensures check(items[i']).value.0 != d[j].0 {
      assert check(items[i']) == Success(entries[i']);
    }
  }

  /** `d` is what the loop of a collection builder leaves for `items` when
      every item is accepted: its keys are exactly the items' keys, and under
      each key it holds the record of the last item that carries that key. */
  ghost predicate IndexesItems<R>(d: Dict<Key, R>, items: seq<Json>, check: Json -> Result<(Key, R), Error>) {
    && DistinctKeys(d)
    && (forall k :: k in Keys(d) <==>
          exists i :: 0 <= i < |items| && check(items[i]).Success? && check(items[i]).value.0 == k)
    && forall j :: 0 <= j < |d| ==>
         exists i :: && 0 <= i < |items| && check(items[i]) == Success(d[j])
                     && forall i' :: i < i' < |items| && check(items[i']).Success? ==> check(items[i']).value.0 != d[j].0
  }

  /** A successful build is the index of its items. */
  lemma BuildIndexIndexes<R>(items: seq<Json>, check: Json -> Result<(Key, R), Error>)
    requires BuildIndex(items, check).Success?
    ensures IndexesItems(BuildIndex(items, check).value, items, check)
  {
    var d := BuildIndex(items, check).value;
    forall j | 0 <= j < |d|
      ensures exists i :: && 0 <= i < |items| && check(items[i]) == Success(d[j])
                          && forall i' :: i < i' < |items| && check(items[i']).Success? ==> check(items[i']).value.0 != d[j].0
    {
      BuildIndexLastWrite(items, check, j);
    }
  }

  /** One entry of `get_filaments`: parse it, then demand an id that Python
      can use as a dict key. */
  function CheckFilament(item: Json): (r: Result<(Key, Filament), Error>)
    ensures r.Success? <==> ParseFilament(item).Some? && !ParseFilament(item).value.id.JNull?
                            && Hashable(ParseFilament(item).value.id)
    ensures r.Success? ==> r.value.1 == ParseFilament(item).value && KeyOf(r.value.1.id) == Some(r.value.0)
    ensures r.Failure? ==> r.error.Fault? || r.error == MalformedResponse(FilamentWithoutId)
    ensures r == Failure(MalformedResponse(FilamentWithoutId)) <==> ParseFilament(item).Some? && ParseFilament(item).value.id.JNull?
  {
    var f :- (match ParseFilament(item) case Some(f) => Success(f) case None => Failure(Fault));
    if f.id.JNull? then Failure(MalformedResponse(FilamentWithoutId))
    else match KeyOf(f.id)
      case None => Failure(Fault)
      case Some(k) => Success((k, f))
  }

  /** One entry of `get_materials`, checked the same way. */
  function CheckMaterial(item: Json): (r: Result<(Key, Material), Error>)
    ensures r.Success? <==> ParseMaterial(item).Some? && !ParseMaterial(item).value.id.JNull?
                            && Hashable(ParseMaterial(item).value.id)
    ensures r.Success? ==> r.value.1 == ParseMaterial(item).value && KeyOf(r.value.1.id) == Some(r.value.0)
    ensures r.Failure? ==> r.error.Fault? || r.error == MalformedResponse(MaterialWithoutId)
    ensures r == Failure(MalformedResponse(MaterialWithoutId)) <==> ParseMaterial(item).Some? && ParseMaterial(item).value.id.JNull?
  {
    var m :- (match ParseMaterial(item) case Some(m) => Success(m) case None => Failure(Fault));
    if m.id.JNull? then Failure(MalformedResponse(MaterialWithoutId))
    else match KeyOf(m.id)
      case None => Failure(Fault)
      case Some(k) => Success((k, m))
  }

  /** A dict of spools keyed by their ids. */
  predicate FilamentIndex(d: Dict<Key, Filament>) {
    && DistinctKeys(d)
    && forall i :: 0 <= i < |d| ==> KeyOf(d[i].1.id) == Some(d[i].0)
  }

  /** A dict of materials keyed by their ids. */
  predicate MaterialIndex(d: Dict<Key, Material>) {
    && DistinctKeys(d)
    && forall i :: 0 <= i < |d| ==> KeyOf(d[i].1.id) == Some(d[i].0)
  }

  /** The entries `get_filaments` visits: the values of the `filament` dict. */
  function FilamentItems(payload: Json): (r: Result<seq<Json>, Error>)
    ensures r.Success? <==> payload.JObj? && Get(payload.members, "filament").JObj?
    ensures r.Success? ==> r.value == Values(Get(payload.members, "filament").members)
    ensures r == Failure(MalformedResponse(MissingCollection)) <==> payload.JObj? && Get(payload.members, "filament").JNull?
    ensures r.Failure? ==> r.error == MalformedResponse(MissingCollection) || r.error.Fault?
  {
    if !payload.JObj? then Failure(Fault)
    else
      var collection := Get(payload.members, "filament");
      if collection.JNull? then Failure(MalformedResponse(MissingCollection))
      else if !collection.JObj? then Failure(Fault)
      else Success(Values(collection.members))
  }

  /** The entries `get_materials` visits: whatever `for item in data` yields. */
  function MaterialItems(payload: Json): (r: Result<seq<Json>, Error>)
    ensures r.Success? <==> payload.JObj? && Iterate(Get(payload.members, "data")).Some?
    ensures r.Success? ==> Some(r.value) == Iterate(Get(payload.members, "data"))
    ensures r == Failure(MalformedResponse(MissingCollection)) <==> payload.JObj? && Get(payload.members, "data").JNull?
    ensures r.Failure? ==> r.error == MalformedResponse(MissingCollection) || r.error.Fault?
  {
    if !payload.JObj? then Failure(Fault)
    else
      var collection := Get(payload.members, "data");
      if collection.JNull? then Failure(MalformedResponse(MissingCollection))
      else match Iterate(collection)
        case None => Failure(Fault)
        case Some(items) => Success(items)
  }

  /** `get_filaments`: validate the response, find the collection, parse it
      into a dict keyed by spool id. The dict holds exactly the parsed ids,
      and under each the spool of the last entry with that id. */
  function GetFilaments(o: Outcome): (r: Result<Dict<Key, Filament>, Error>)
    ensures Validate(o).Failure? ==> r == Failure(Validate(o).error)
    ensures Validate(o).Success? ==> (r.Success? <==>
              && FilamentItems(Validate(o).value).Success?
              && forall i :: 0 <= i < |FilamentItems(Validate(o).value).value| ==>
                   CheckFilament(FilamentItems(Validate(o).value).value[i]).Success?)
    ensures Validate(o).Success? && FilamentItems(Validate(o).value).Success? ==>
              r == BuildIndex(FilamentItems(Validate(o).value).value, CheckFilament)
    ensures Validate(o).Success? && FilamentItems(Validate(o).value).Failure? ==>
              r == Failure(FilamentItems(Validate(o).value).error)
    ensures r.Success? ==> FilamentIndex(r.value)
    ensures r.Success? ==> IndexesItems(r.value, FilamentItems(Validate(o).value).value, CheckFilament)
  {
    var v := Validate(o);
    if v.Failure? then Failure(v.error)
    else
      var items := FilamentItems(v.value);
      if items.Failure? then Failure(items.error)
      else
        var b := BuildIndex(items.value, CheckFilament);
        if b.Success? then
          BuildIndexIndexes(items.value, CheckFilament);
          assert FilamentIndex(b.value) by {
            forall j | 0 <= j < |b.value| ensures KeyOf(b.value[j].1.id) == Some(b.value[j].0) {
              var i :| 0 <= i < |items.value| && CheckFilament(items.value[i]) == Success(b.value[j]);
            }
          }
          b
        else b
  }

  /** `get_materials`: validate the response, iterate `data`, parse it
      into a dict keyed by material id. The dict holds exactly the parsed ids,
      and under each the material of the last entry with that id. */
  function GetMaterials(o: Outcome): (r: Result<Dict<Key, Material>, Error>)
    ensures Validate(o).Failure? ==> r == Failure(Validate(o).error)
    ensures Validate(o).Success? ==> (r.Success? <==>
              && MaterialItems(Validate(o).value).Success?
              && forall i :: 0 <= i < |MaterialItems(Validate(o).value).value| ==>
                   CheckMaterial(MaterialItems(Validate(o).value).value[i]).Success?)
    ensures Validate(o).Success? && MaterialItems(Validate(o).value).Success? ==>
              r == BuildIndex(MaterialItems(Validate(o).value).value, CheckMaterial)
    ensures Validate(o).Success? && MaterialItems(Validate(o).value).Failure? ==>
              r == Failure(MaterialItems(Validate(o).value).error)
    ensures r.Success? ==> MaterialIndex(r.value)
    ensures r.Success? ==> IndexesItems(r.value, MaterialItems(Validate(o).value).value, CheckMaterial)
  {
    var v := Validate(o);
    if v.Failure? then Failure(v.error)
    else
      var items := MaterialItems(v.value);
      if items.Failure? then Failure(items.error)
      else
        var b := BuildIndex(items.value, CheckMaterial);
        if b.Success? then
          BuildIndexIndexes(items.value, CheckMaterial);
          assert MaterialIndex(b.value) by {
            forall j | 0 <= j < |b.value| ensures KeyOf(b.value[j].1.id) == Some(b.value[j].0) {
              var i :| 0 <= i < |items.value| && CheckMaterial(items.value[i]) == Success(b.value[j]);
            }
          }
          b
        else b
  }
}
