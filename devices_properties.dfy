/**
 * What the decoding rules of module Devices amount to: which parsed bodies
 * decode, and to what. The shape predicates and the `Present...` functions
 * below are a second, field-by-field reading of the same rules, stated without
 * the decoders, and the lemmas tie the two together.
 */
module DevicesProperties {
  import opened Wrappers
  import opened Json
  import opened Devices

  // ---------------------------------------------------------------------------
  // Reference reading: what a present value must look like

  predicate StringShaped(v: Json) { v.JNull? || v.JString? }

  predicate BoolShaped(v: Json) { v.JNull? || v.JBool? }

  predicate I64Shaped(v: Json) { v.JNull? || (v.JInt? && I64_MIN <= v.i <= I64_MAX) }

  predicate TimestampShaped(v: Json, parseTime: string -> Option<Timestamp>) {
    v.JNull? || (v.JString? && parseTime(v.s).Some?)
  }

  /** The four spellings of a state that decode; nothing else falls back to a default. */
  predicate StateShaped(v: Json) {
    v == JString("Online") || v == JString("Offline")
    || v == JObject([("Online", JNull)]) || v == JObject([("Offline", JNull)])
  }

  /** The field is missing, or its value has the given shape. */
  predicate Admits(value: Option<Json>, shaped: Json -> bool) {
    match value
    case None => true
    case Some(v) => shaped(v)
  }

  /** A device object that decodes: no known key twice, every present known key well shaped. */
  predicate WellShapedDevice(entries: seq<(string, Json)>, parseTime: string -> Option<Timestamp>) {
    && (forall n :: n in DEVICE_FIELDS ==> Count(entries, n) <= 1)
    && Admits(Lookup(entries, "remotecontrol_id"), StringShaped)
    && Admits(Lookup(entries, "device_id"), StringShaped)
    && Admits(Lookup(entries, "userid"), StringShaped)
    && Admits(Lookup(entries, "alias"), StringShaped)
    && Admits(Lookup(entries, "groupid"), StringShaped)
    && Admits(Lookup(entries, "description"), StringShaped)
    && Admits(Lookup(entries, "online_state"), StateShaped)
    && Admits(Lookup(entries, "policy_id"), StringShaped)
    && Admits(Lookup(entries, "assigned_to"), BoolShaped)
    && Admits(Lookup(entries, "supported_features"), StringShaped)
    && Admits(Lookup(entries, "last_seen"), v => TimestampShaped(v, parseTime))
    && Admits(Lookup(entries, "teamviewer_id"), I64Shaped)
  }

  // ---------------------------------------------------------------------------
  // Reference reading: what a well-shaped object resolves to

  /** A present string, else none (missing and `null` alike). */
  function StringValue(value: Option<Json>): Option<string> {
    match value
    case Some(JString(s)) => Some(s)
    case _ => None
  }

  function BoolValue(value: Option<Json>): Option<bool> {
    match value
    case Some(JBool(b)) => Some(b)
    case _ => None
  }

  function IntValue(value: Option<Json>): Option<int> {
    match value
    case Some(JInt(i)) => Some(i)
    case _ => None
  }

  function TimestampValue(value: Option<Json>, parseTime: string -> Option<Timestamp>): Option<Timestamp> {
    match value
    case Some(JString(s)) => parseTime(s)
    case _ => None
  }

  /** `Online` only when the record names it; a missing state leaves the pessimistic default. */
  function StateValue(value: Option<Json>): OnlineState {
    match value
    case Some(v) => if v == JString("Online") || v == JObject([("Online", JNull)]) then Online else Offline
    case None => Offline
  }

  function ResolvedDevice(entries: seq<(string, Json)>, parseTime: string -> Option<Timestamp>): GetDeviceResponse {
    GetDeviceResponse(
      StringValue(Lookup(entries, "remotecontrol_id")), StringValue(Lookup(entries, "device_id")),
      StringValue(Lookup(entries, "userid")), StringValue(Lookup(entries, "alias")),
      StringValue(Lookup(entries, "groupid")), StringValue(Lookup(entries, "description")),
      StateValue(Lookup(entries, "online_state")), StringValue(Lookup(entries, "policy_id")),
      BoolValue(Lookup(entries, "assigned_to")), StringValue(Lookup(entries, "supported_features")),
      TimestampValue(Lookup(entries, "last_seen"), parseTime), IntValue(Lookup(entries, "teamviewer_id")))
  }

  // ---------------------------------------------------------------------------
  // The decoders agree with the reference reading

  lemma StringFieldExact(value: Option<Json>)
    ensures Present(value, DecodeOptString, None).Ok? <==> Admits(value, StringShaped)
    ensures Present(value, DecodeOptString, None).Ok? ==> Present(value, DecodeOptString, None).value == StringValue(value)
  {
  }

  lemma BoolFieldExact(value: Option<Json>)
    ensures Present(value, DecodeOptBool, None).Ok? <==> Admits(value, BoolShaped)
    ensures Present(value, DecodeOptBool, None).Ok? ==> Present(value, DecodeOptBool, None).value == BoolValue(value)
  {
  }

  lemma I64FieldExact(value: Option<Json>)
    ensures Present(value, DecodeOptI64, None).Ok? <==> Admits(value, I64Shaped)
    ensures Present(value, DecodeOptI64, None).Ok? ==> Present(value, DecodeOptI64, None).value == IntValue(value)
  {
  }

  lemma TimestampFieldExact(value: Option<Json>, parseTime: string -> Option<Timestamp>)
    ensures Present(value, v => DecodeOptTimestamp(v, parseTime), None).Ok?
            <==> Admits(value, v => TimestampShaped(v, parseTime))
    ensures Present(value, v => DecodeOptTimestamp(v, parseTime), None).Ok? ==>
              Present(value, v => DecodeOptTimestamp(v, parseTime), None).value == TimestampValue(value, parseTime)
  {
  }

  lemma StateFieldExact(value: Option<Json>)
    ensures Present(value, DecodeOnlineState, DEFAULT_ONLINE_STATE).Ok? <==> Admits(value, StateShaped)
    ensures Present(value, DecodeOnlineState, DEFAULT_ONLINE_STATE).Ok? ==>
              Present(value, DecodeOnlineState, DEFAULT_ONLINE_STATE).value == StateValue(value)
  {
  }

  /** Every field value well shaped. */
  predicate WellShapedValues(raw: RawFields, parseTime: string -> Option<Timestamp>) {
    && Admits(raw.remotecontrolId, StringShaped) && Admits(raw.deviceId, StringShaped)
    && Admits(raw.userid, StringShaped) && Admits(raw.alias, StringShaped)
    && Admits(raw.groupid, StringShaped) && Admits(raw.description, StringShaped)
    && Admits(raw.onlineState, StateShaped) && Admits(raw.policyId, StringShaped)
    && Admits(raw.assignedTo, BoolShaped) && Admits(raw.supportedFeatures, StringShaped)
    && Admits(raw.lastSeen, v => TimestampShaped(v, parseTime)) && Admits(raw.teamviewerId, I64Shaped)
  }

  function ResolvedValues(raw: RawFields, parseTime: string -> Option<Timestamp>): GetDeviceResponse {
    GetDeviceResponse(
      StringValue(raw.remotecontrolId), StringValue(raw.deviceId), StringValue(raw.userid),
      StringValue(raw.alias), StringValue(raw.groupid), StringValue(raw.description),
      StateValue(raw.onlineState), StringValue(raw.policyId), BoolValue(raw.assignedTo),
      StringValue(raw.supportedFeatures), TimestampValue(raw.lastSeen, parseTime), IntValue(raw.teamviewerId))
  }

  /** Field values decode exactly when each is well shaped, to their field-by-field reading. */
  lemma DecodeFieldsExact(raw: RawFields, parseTime: string -> Option<Timestamp>)
    ensures DecodeFields(raw, parseTime).Ok? <==> WellShapedValues(raw, parseTime)
    ensures DecodeFields(raw, parseTime).Ok? ==> DecodeFields(raw, parseTime).value == ResolvedValues(raw, parseTime)
  {
    StringFieldExact(raw.remotecontrolId);
    StringFieldExact(raw.deviceId);
    StringFieldExact(raw.userid);
    StringFieldExact(raw.alias);
    StringFieldExact(raw.groupid);
    StringFieldExact(raw.description);
    StateFieldExact(raw.onlineState);
    StringFieldExact(raw.policyId);
    BoolFieldExact(raw.assignedTo);
    StringFieldExact(raw.supportedFeatures);
    TimestampFieldExact(raw.lastSeen, parseTime);
    I64FieldExact(raw.teamviewerId);
  }

  /** Exactly the well-shaped objects decode, each to its field-by-field reading. */
  lemma DeviceObjectExact(entries: seq<(string, Json)>, parseTime: string -> Option<Timestamp>)
    ensures DecodeDeviceObject(entries, parseTime).Ok? <==> WellShapedDevice(entries, parseTime)
    ensures DecodeDeviceObject(entries, parseTime).Ok? ==>
              DecodeDeviceObject(entries, parseTime).value == ResolvedDevice(entries, parseTime)
  {
    DecodeFieldsExact(FieldValues(entries), parseTime);
  }

  /** A well-shaped device object decodes to its field-by-field reading. */
  lemma WellShapedDecodes(entries: seq<(string, Json)>, parseTime: string -> Option<Timestamp>)
    requires WellShapedDevice(entries, parseTime)
    ensures DecodeDevice(JObject(entries), parseTime) == Ok(ResolvedDevice(entries, parseTime))
  {
    DeviceObjectExact(entries, parseTime);
  }

  // ---------------------------------------------------------------------------
  // online_state

  /** A decoded record's state is the reading of its `online_state` entry, which is well shaped. */
  lemma DecodedState(entries: seq<(string, Json)>, parseTime: string -> Option<Timestamp>)
    ensures DecodeDevice(JObject(entries), parseTime).Ok? ==>
              && Admits(Lookup(entries, "online_state"), StateShaped)
              && DecodeDevice(JObject(entries), parseTime).value.onlineState == StateValue(Lookup(entries, "online_state"))
  {
    DeviceObjectExact(entries, parseTime);
  }

  /** A record without `online_state` decodes (when it decodes at all) as `Offline`. */
  lemma MissingStateIsOffline(entries: seq<(string, Json)>, parseTime: string -> Option<Timestamp>)
    requires Lookup(entries, "online_state").None?
    ensures DecodeDevice(JObject(entries), parseTime).Ok? ==>
              DecodeDevice(JObject(entries), parseTime).value.onlineState == Offline
  {
    DecodedState(entries, parseTime);
  }

  /** A present state string decodes only when it is a variant name, and then to that variant. */
  lemma PresentStateNamesVariant(entries: seq<(string, Json)>, parseTime: string -> Option<Timestamp>, name: string)
    requires Lookup(entries, "online_state") == Some(JString(name))
    ensures name != "Online" && name != "Offline" ==> DecodeDevice(JObject(entries), parseTime).Err?
    ensures DecodeDevice(JObject(entries), parseTime).Ok? ==>
              DecodeDevice(JObject(entries), parseTime).value.onlineState == (if name == "Online" then Online else Offline)
  {
    DecodedState(entries, parseTime);
  }

  /** `null` is not absence: a present `null` state is an error, not the default. */
  lemma NullStateRejected(entries: seq<(string, Json)>, parseTime: string -> Option<Timestamp>)
    requires Lookup(entries, "online_state") == Some(JNull)
    ensures DecodeDevice(JObject(entries), parseTime).Err?
  {
    DecodedState(entries, parseTime);
  }

  // ---------------------------------------------------------------------------
  // Unknown keys and the positional form

  lemma FirstDuplicateOnCounts(names: seq<string>, a: seq<(string, Json)>, b: seq<(string, Json)>)
    requires forall n :: n in names ==> Count(a, n) == Count(b, n)
    ensures FirstDuplicate(names, a) == FirstDuplicate(names, b)
  {
  }

  /** An entry whose key is not a device field may be inserted anywhere without effect. */
  lemma DeviceIgnoresUnknownKey(a: seq<(string, Json)>, b: seq<(string, Json)>, k: string, v: Json,
                                parseTime: string -> Option<Timestamp>)
    requires k !in DEVICE_FIELDS
    ensures DecodeDevice(JObject(a + [(k, v)] + b), parseTime) == DecodeDevice(JObject(a + b), parseTime)
  {
    var x, y := a + [(k, v)] + b, a + b;
    forall n | n in DEVICE_FIELDS
      ensures Count(x, n) == Count(y, n) && Lookup(x, n) == Lookup(y, n)
    {
      InsertOtherKey(a, b, k, v, n);
    }
    FirstDuplicateOnCounts(DEVICE_FIELDS, x, y);
    SameFieldsSameDevice(x, y, parseTime);
  }

  /** A device object's decoding depends only on the values its known keys look up. */
  lemma SameFieldsSameDevice(x: seq<(string, Json)>, y: seq<(string, Json)>, parseTime: string -> Option<Timestamp>)
    requires FirstDuplicate(DEVICE_FIELDS, x) == FirstDuplicate(DEVICE_FIELDS, y)
    requires forall n :: n in DEVICE_FIELDS ==> Lookup(x, n) == Lookup(y, n)
    ensures DecodeDevice(JObject(x), parseTime) == DecodeDevice(JObject(y), parseTime)
  {
    if FirstDuplicate(DEVICE_FIELDS, x) == None {
      SameLookupsSameValues(x, y);
      ObjectDecodesFields(x, parseTime);
      ObjectDecodesFields(y, parseTime);
    }
  }

  lemma SameLookupsSameValues(x: seq<(string, Json)>, y: seq<(string, Json)>)
    requires forall n :: n in DEVICE_FIELDS ==> Lookup(x, n) == Lookup(y, n)
    ensures FieldValues(x) == FieldValues(y)
  {
  }

  /** The entries of an object naming the twelve fields of `items` in declaration order. */
  function Named(items: seq<Json>): (entries: seq<(string, Json)>)
    requires |items| == 12
    ensures |entries| == 12
  {
    seq(12, i requires 0 <= i < 12 => (DEVICE_FIELDS[i], items[i]))
  }

  /** The positional form of a record denotes the same record as the object naming its fields. */
  lemma PositionalMatchesNamed(items: seq<Json>, parseTime: string -> Option<Timestamp>)
    requires |items| == 12
    ensures DecodeDevice(JArray(items), parseTime) == DecodeDevice(JObject(Named(items)), parseTime)
  {
    NamedFieldValues(items);
    NamedNoDuplicate(items);
    ArrayDecodesFields(items, parseTime);
    ObjectDecodesFields(Named(items), parseTime);
  }

  lemma ArrayDecodesFields(items: seq<Json>, parseTime: string -> Option<Timestamp>)
    requires |items| == 12
    ensures DecodeDevice(JArray(items), parseTime) == DecodeFields(PositionalValues(items), parseTime)
  {
  }

  lemma ObjectDecodesFields(entries: seq<(string, Json)>, parseTime: string -> Option<Timestamp>)
    requires FirstDuplicate(DEVICE_FIELDS, entries) == None
    ensures DecodeDevice(JObject(entries), parseTime) == DecodeFields(FieldValues(entries), parseTime)
  {
  }

  lemma DeviceFieldsDistinct()
    ensures forall j, l :: 0 <= j < l < |DEVICE_FIELDS| ==> DEVICE_FIELDS[j] != DEVICE_FIELDS[l]
  {
  }

  /** Naming the elements in declaration order gives each field its element, once. */
  lemma NamedFieldValues(items: seq<Json>)
    requires |items| == 12
    ensures FieldValues(Named(items)) == PositionalValues(items)
  {
    NamedLookups(items);
  }

  /** Naming the elements in declaration order repeats no field. */
  lemma NamedNoDuplicate(items: seq<Json>)
    requires |items| == 12
    ensures FirstDuplicate(DEVICE_FIELDS, Named(items)) == None
  {
    NamedCounts(items);
  }

  lemma NamedLookups(items: seq<Json>)
    requires |items| == 12
    ensures forall i :: 0 <= i < 12 ==> Lookup(Named(items), DEVICE_FIELDS[i]) == Some(items[i])
  {
    DeviceFieldsDistinct();
    forall i | 0 <= i < 12 ensures Lookup(Named(items), DEVICE_FIELDS[i]) == Some(items[i]) {
      LookupFirst(Named(items), i);
    }
  }

  lemma NamedCounts(items: seq<Json>)
    requires |items| == 12
    ensures forall n :: n in DEVICE_FIELDS ==> Count(Named(items), n) <= 1
  {
    DeviceFieldsDistinct();
    forall n | n in DEVICE_FIELDS ensures Count(Named(items), n) <= 1 {
      CountDistinctAtMostOne(Named(items), n);
    }
  }

  /** A positional record decodes only with exactly twelve elements: no field defaults there. */
  lemma PositionalNeedsEveryField(items: seq<Json>, parseTime: string -> Option<Timestamp>)
    requires |items| != 12
    ensures DecodeDevice(JArray(items), parseTime).Err?
  {
  }

  // ---------------------------------------------------------------------------
  // The response

  /** No `devices` key: an empty list, not an error. */
  lemma MissingDevicesIsEmpty(entries: seq<(string, Json)>, parseTime: string -> Option<Timestamp>)
    requires Lookup(entries, DEVICES_FIELD).None?
    ensures DecodeAllDevices(JObject(entries), parseTime) == Ok(GetAllDevicesResponse([]))
  {
  }

  /** Present `devices` must be an array; `null` in particular is an error. */
  lemma NonArrayDevicesRejected(entries: seq<(string, Json)>, v: Json, parseTime: string -> Option<Timestamp>)
    requires Lookup(entries, DEVICES_FIELD) == Some(v) && !v.JArray?
    ensures DecodeAllDevices(JObject(entries), parseTime).Err?
  {
  }

  /**
   * With a `devices` array, the response decodes exactly when `devices` is
   * given once and every element decodes, and then holds one record per
   * element, in upstream order.
   */
  lemma DevicesInUpstreamOrder(entries: seq<(string, Json)>, items: seq<Json>, parseTime: string -> Option<Timestamp>)
    requires Lookup(entries, DEVICES_FIELD) == Some(JArray(items))
    ensures DecodeAllDevices(JObject(entries), parseTime).Ok? <==>
              Count(entries, DEVICES_FIELD) == 1 && forall i :: 0 <= i < |items| ==> DecodeDevice(items[i], parseTime).Ok?
    ensures DecodeAllDevices(JObject(entries), parseTime).Ok? ==>
              var devices := DecodeAllDevices(JObject(entries), parseTime).value.devices;
              |devices| == |items| && forall i :: 0 <= i < |items| ==> DecodeDevice(items[i], parseTime) == Ok(devices[i])
  {
    ResponseIsDeviceList(entries, items, parseTime);
    var decode := w => DecodeDevice(w, parseTime);
    assert DecodeDeviceList(JArray(items), parseTime) == DecodeVec(items, decode);
    assert forall i :: 0 <= i < |items| ==> decode(items[i]) == DecodeDevice(items[i], parseTime);
  }

  /**
   * The response written as a JSON array holds `devices` positionally: no
   * element gives the empty list, one element is the list, more are an error.
   */
  lemma PositionalResponse(items: seq<Json>, parseTime: string -> Option<Timestamp>)
    ensures |items| == 0 ==> DecodeAllDevices(JArray(items), parseTime) == Ok(GetAllDevicesResponse([]))
    ensures |items| == 1 ==>
              DecodeAllDevices(JArray(items), parseTime).Ok? == DecodeDeviceList(items[0], parseTime).Ok?
    ensures |items| == 1 && DecodeAllDevices(JArray(items), parseTime).Ok? ==>
              DecodeAllDevices(JArray(items), parseTime).value.devices == DecodeDeviceList(items[0], parseTime).value
    ensures |items| > 1 ==> DecodeAllDevices(JArray(items), parseTime).Err?
  {
  }

  /** With a `devices` array, the response is the decoding of that array, provided the key is not repeated. */
  lemma ResponseIsDeviceList(entries: seq<(string, Json)>, items: seq<Json>, parseTime: string -> Option<Timestamp>)
    requires Lookup(entries, DEVICES_FIELD) == Some(JArray(items))
    ensures DecodeAllDevices(JObject(entries), parseTime).Ok? <==>
              Count(entries, DEVICES_FIELD) == 1 && DecodeDeviceList(JArray(items), parseTime).Ok?
    ensures DecodeAllDevices(JObject(entries), parseTime).Ok? ==>
              DecodeAllDevices(JObject(entries), parseTime).value.devices == DecodeDeviceList(JArray(items), parseTime).value
  {
    ResponseObjectForm(entries, items, parseTime);
  }

  lemma ResponseObjectForm(entries: seq<(string, Json)>, items: seq<Json>, parseTime: string -> Option<Timestamp>)
    requires Lookup(entries, DEVICES_FIELD) == Some(JArray(items))
    ensures DecodeAllDevices(JObject(entries), parseTime) ==
              if Count(entries, DEVICES_FIELD) > 1 then Err(DuplicateField(DEVICES_FIELD))
              else match DecodeDeviceList(JArray(items), parseTime)
                   case Ok(devices) => Ok(GetAllDevicesResponse(devices))
                   case Err(e) => Err(e)
  {
  }
}
