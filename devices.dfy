/**
 * The device-directory response of src/main.rs and the rules its derived
 * deserializers apply to a parsed JSON body: `Option` fields turn `null` or
 * absence into "none", `online_state` falls back to `Offline` only when the key
 * is absent, a missing `devices` key yields an empty list, unknown keys are
 * skipped, a known key given twice is an error, and a struct may also be
 * written positionally as a JSON array.
 */
module Devices {
  import opened Wrappers
  import opened Json

  /** Status of a device; `Offline` is the enum's `#[default]` variant. */
  datatype OnlineState = Online | Offline

  const DEFAULT_ONLINE_STATE: OnlineState := Offline

  /**
   * A `last_seen` date-time as the date-time library parses it; its inner
   * structure is the library's and is carried here only as text.
   */
  datatype Timestamp = Timestamp(text: string)

  /** One device record, field for field as in `GetDeviceResponse`. */
  datatype GetDeviceResponse = GetDeviceResponse(
    remotecontrolId: Option<string>,
    deviceId: Option<string>,
    userid: Option<string>,
    alias: Option<string>,
    groupid: Option<string>,
    description: Option<string>,
    onlineState: OnlineState,
    policyId: Option<string>,
    assignedTo: Option<bool>,
    supportedFeatures: Option<string>,
    lastSeen: Option<Timestamp>,
    teamviewerId: Option<int>)

  /** The whole response: the device list in upstream order. */
  datatype GetAllDevicesResponse = GetAllDevicesResponse(devices: seq<GetDeviceResponse>)

  /** Why a body does not fit the expected shape. */
  datatype DecodeError =
    | InvalidType(expected: string)
    | UnknownVariant(name: string)
    | DuplicateField(name: string)
    | InvalidLength(length: nat)
    | TrailingCharacters
    | OutOfRange(n: int)
    | InvalidTimestamp(text: string)

  /** The JSON keys of a device record, in declaration order. */
  const DEVICE_FIELDS: seq<string> := [
    "remotecontrol_id", "device_id", "userid", "alias", "groupid", "description",
    "online_state", "policy_id", "assigned_to", "supported_features", "last_seen",
    "teamviewer_id"]

  const DEVICES_FIELD: string := "devices"

  const I64_MIN: int := -0x8000_0000_0000_0000
  const I64_MAX: int := 0x7FFF_FFFF_FFFF_FFFF

  // ---------------------------------------------------------------------------
  // Field decoders

  /** `Option<String>`: `null` is none, a string is itself, anything else fails. */
  function DecodeOptString(v: Json): Result<Option<string>, DecodeError> {
    match v
    case JNull => Ok(None)
    case JString(s) => Ok(Some(s))
    case _ => Err(InvalidType("a string"))
  }

  /** `Option<bool>`. */
  function DecodeOptBool(v: Json): Result<Option<bool>, DecodeError> {
    match v
    case JNull => Ok(None)
    case JBool(b) => Ok(Some(b))
    case _ => Err(InvalidType("a boolean"))
  }

  /** `Option<i64>`: an integer literal within the signed 64-bit range. */
  function DecodeOptI64(v: Json): Result<Option<int>, DecodeError> {
    match v
    case JNull => Ok(None)
    case JInt(i) => if I64_MIN <= i <= I64_MAX then Ok(Some(i)) else Err(OutOfRange(i))
    case _ => Err(InvalidType("i64"))
  }

  /** `Option<DateTime<Local>>`: a string that the date-time parser `parseTime` accepts. */
  function DecodeOptTimestamp(v: Json, parseTime: string -> Option<Timestamp>): Result<Option<Timestamp>, DecodeError> {
    match v
    case JNull => Ok(None)
    case JString(s) =>
      (match parseTime(s)
       case Some(t) => Ok(Some(t))
       case None => Err(InvalidTimestamp(s)))
    case _ => Err(InvalidType("a date-time string"))
  }

  /** A variant name of `OnlineState`. */
  function VariantNamed(name: string): Result<OnlineState, DecodeError> {
    if name == "Online" then Ok(Online)
    else if name == "Offline" then Ok(Offline)
    else Err(UnknownVariant(name))
  }

  /**
   * `OnlineState`, a unit-only enum with no catch-all variant: the bare
   * variant name, or an object whose single entry maps the name to `null`.
   */
  function DecodeOnlineState(v: Json): Result<OnlineState, DecodeError> {
    match v
    case JString(name) => VariantNamed(name)
    case JObject(entries) =>
      if |entries| == 1 && entries[0].1 == JNull then VariantNamed(entries[0].0)
      else Err(InvalidType("unit variant of OnlineState"))
    case _ => Err(InvalidType("variant of OnlineState"))
  }

  // ---------------------------------------------------------------------------
  // Device records

  /** The first field of `names` present more than once among `entries`. */
  function FirstDuplicate(names: seq<string>, entries: seq<(string, Json)>): (r: Option<string>)
    ensures r.Some? ==> r.value in names && Count(entries, r.value) > 1
    ensures r.None? <==> forall n :: n in names ==> Count(entries, n) <= 1
  {
    if names == [] then None
    else if Count(entries, names[0]) > 1 then Some(names[0])
    else FirstDuplicate(names[1..], entries)
  }

  /** Decodes a field's value with `decode`, or yields `absent` when the field is missing. */
  function Present<T>(value: Option<Json>, decode: Json -> Result<T, DecodeError>, absent: T): Result<T, DecodeError> {
    match value
    case None => Ok(absent)
    case Some(v) => decode(v)
  }

  /** The value given for each field of a device record (`None`: the field is missing). */
  datatype RawFields = RawFields(
    remotecontrolId: Option<Json>, deviceId: Option<Json>, userid: Option<Json>, alias: Option<Json>,
    groupid: Option<Json>, description: Option<Json>, onlineState: Option<Json>, policyId: Option<Json>,
    assignedTo: Option<Json>, supportedFeatures: Option<Json>, lastSeen: Option<Json>, teamviewerId: Option<Json>)

  /** A record from the values of its fields, decoded in declaration order; the first failing field decides the error. */
  function DecodeFields(raw: RawFields, parseTime: string -> Option<Timestamp>): Result<GetDeviceResponse, DecodeError> {
    var remotecontrolId :- Present(raw.remotecontrolId, DecodeOptString, None);
    var deviceId :- Present(raw.deviceId, DecodeOptString, None);
    var userid :- Present(raw.userid, DecodeOptString, None);
    var alias :- Present(raw.alias, DecodeOptString, None);
    var groupid :- Present(raw.groupid, DecodeOptString, None);
    var description :- Present(raw.description, DecodeOptString, None);
    var onlineState :- Present(raw.onlineState, DecodeOnlineState, DEFAULT_ONLINE_STATE);
    var policyId :- Present(raw.policyId, DecodeOptString, None);
    var assignedTo :- Present(raw.assignedTo, DecodeOptBool, None);
    var supportedFeatures :- Present(raw.supportedFeatures, DecodeOptString, None);
    var lastSeen :- Present(raw.lastSeen, v => DecodeOptTimestamp(v, parseTime), None);
    var teamviewerId :- Present(raw.teamviewerId, DecodeOptI64, None);
    Ok(GetDeviceResponse(remotecontrolId, deviceId, userid, alias, groupid, description,
                         onlineState, policyId, assignedTo, supportedFeatures, lastSeen, teamviewerId))
  }

  /** The value of each device field in an object: the entry with the field's key. */
  function FieldValues(entries: seq<(string, Json)>): RawFields {
    RawFields(
      Lookup(entries, "remotecontrol_id"), Lookup(entries, "device_id"), Lookup(entries, "userid"),
      Lookup(entries, "alias"), Lookup(entries, "groupid"), Lookup(entries, "description"),
      Lookup(entries, "online_state"), Lookup(entries, "policy_id"), Lookup(entries, "assigned_to"),
      Lookup(entries, "supported_features"), Lookup(entries, "last_seen"), Lookup(entries, "teamviewer_id"))
  }

  /** The value of each device field in the positional form: the element at the field's position. */
  function PositionalValues(items: seq<Json>): RawFields
    requires |items| >= 12
  {
    RawFields(
      Some(items[0]), Some(items[1]), Some(items[2]), Some(items[3]), Some(items[4]), Some(items[5]),
      Some(items[6]), Some(items[7]), Some(items[8]), Some(items[9]), Some(items[10]), Some(items[11]))
  }

  /** A device record given as a JSON object: unknown keys are skipped, a known key may appear once. */
  function DecodeDeviceObject(entries: seq<(string, Json)>, parseTime: string -> Option<Timestamp>):
    Result<GetDeviceResponse, DecodeError>
  {
    match FirstDuplicate(DEVICE_FIELDS, entries)
    case Some(name) => Err(DuplicateField(name))
    case None => DecodeFields(FieldValues(entries), parseTime)
  }

  /**
   * A device record given positionally as a JSON array. Every element is
   * required: once the defaulted `online_state` is reached with nothing left,
   * the next field is missing, so only exactly twelve elements succeed.
   */
  function DecodeDeviceArray(items: seq<Json>, parseTime: string -> Option<Timestamp>):
    Result<GetDeviceResponse, DecodeError>
  {
    if |items| < 12 then Err(InvalidLength(|items|))
    else
      var device :- DecodeFields(PositionalValues(items), parseTime);
      if |items| > 12 then Err(TrailingCharacters) else Ok(device)
  }

  /** `GetDeviceResponse` from any JSON value. */
  function DecodeDevice(v: Json, parseTime: string -> Option<Timestamp>): Result<GetDeviceResponse, DecodeError> {
    match v
    case JObject(entries) => DecodeDeviceObject(entries, parseTime)
    case JArray(items) => DecodeDeviceArray(items, parseTime)
    case _ => Err(InvalidType("struct GetDeviceResponse"))
  }

  // ---------------------------------------------------------------------------
  // The response

  /**
   * `Vec<T>` from the elements of a JSON array, decoded in order with
   * `decode`, stopping at the first element that fails.
   */
  function DecodeVec<T>(items: seq<Json>, decode: Json -> Result<T, DecodeError>): (r: Result<seq<T>, DecodeError>)
    ensures r.Ok? <==> forall i :: 0 <= i < |items| ==> decode(items[i]).Ok?
    ensures r.Ok? ==> |r.value| == |items|
    ensures r.Ok? ==> forall i :: 0 <= i < |items| ==> decode(items[i]) == Ok(r.value[i])
  {
    if items == [] then Ok([])
    else
      var first :- decode(items[0]);
      var rest :- DecodeVec(items[1..], decode);
      assert forall i :: 1 <= i < |items| ==> items[i] == items[1..][i - 1];
      Ok([first] + rest)
  }

  /** The `devices` value: only a JSON array is a list. */
  function DecodeDeviceList(v: Json, parseTime: string -> Option<Timestamp>): Result<seq<GetDeviceResponse>, DecodeError> {
    match v
    case JArray(items) => DecodeVec(items, w => DecodeDevice(w, parseTime))
    case _ => Err(InvalidType("a sequence"))
  }

  /** The response given as a JSON object; `devices` defaults to empty only when absent. */
  function DecodeAllDevicesObject(entries: seq<(string, Json)>, parseTime: string -> Option<Timestamp>):
    Result<GetAllDevicesResponse, DecodeError>
  {
    if Count(entries, DEVICES_FIELD) > 1 then Err(DuplicateField(DEVICES_FIELD))
    else
      var devices :- Present(Lookup(entries, DEVICES_FIELD), v => DecodeDeviceList(v, parseTime), []);
      Ok(GetAllDevicesResponse(devices))
  }

  /** `GetAllDevicesResponse` from the parsed body. */
  function DecodeAllDevices(v: Json, parseTime: string -> Option<Timestamp>): Result<GetAllDevicesResponse, DecodeError> {
    match v
    case JObject(entries) => DecodeAllDevicesObject(entries, parseTime)
    case JArray(items) =>
      if |items| == 0 then Ok(GetAllDevicesResponse([]))
      else
        var devices :- DecodeDeviceList(items[0], parseTime);
        if |items| > 1 then Err(TrailingCharacters) else Ok(GetAllDevicesResponse(devices))
    case _ => Err(InvalidType("struct GetAllDevicesResponse"))
  }
}
