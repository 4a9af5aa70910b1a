/** What `root` and the error mapping of module Gateway guarantee end to end. */
module GatewayProperties {
  import opened Wrappers
  import opened Json
  import opened Devices
  import opened DevicesProperties
  import opened Gateway

  /** Classification keeps the error and changes nothing in the response: both kinds read the same. */
  lemma ClassificationInvisibleInResponse(e: HttpError)
    ensures IntoResponse(FromHttpError(e)) == Response(INTERNAL_SERVER_ERROR, e.text)
    ensures IntoResponse(RequestError(e)) == IntoResponse(ApiResponseError(e))
  {
  }

  /**
   * When the directory answers with a `devices` array, the page lists one
   * record per element, in upstream order, or `root` aborts.
   */
  lemma RootKeepsUpstreamOrder(state: AppState, exchange: Request -> Upstream, now: string,
                               parseTime: string -> Option<Timestamp>, entries: seq<(string, Json)>, items: seq<Json>)
    requires exchange(UpstreamRequest(state)) == Received(Ok(JObject(entries)))
    requires Lookup(entries, DEVICES_FIELD) == Some(JArray(items))
    ensures Root(state, exchange, now, parseTime).Rendered? <==>
              Count(entries, DEVICES_FIELD) == 1 && forall i :: 0 <= i < |items| ==> DecodeDevice(items[i], parseTime).Ok?
    ensures Root(state, exchange, now, parseTime).Rendered? ==>
              var page := Root(state, exchange, now, parseTime).page;
              page.now == now && |page.devices| == |items|
              && forall i :: 0 <= i < |items| ==> DecodeDevice(items[i], parseTime) == Ok(page.devices[i])
  {
    DevicesInUpstreamOrder(entries, items, parseTime);
  }

  /** An answer without a `devices` key renders an empty page rather than failing. */
  lemma RootWithoutDevicesKey(state: AppState, exchange: Request -> Upstream, now: string,
                              parseTime: string -> Option<Timestamp>, entries: seq<(string, Json)>)
    requires exchange(UpstreamRequest(state)) == Received(Ok(JObject(entries)))
    requires Lookup(entries, DEVICES_FIELD).None?
    ensures Root(state, exchange, now, parseTime) == Rendered(IndexTemplate(now, []))
  {
    MissingDevicesIsEmpty(entries, parseTime);
  }

  /** Any failure of the exchange, of reading the body or of decoding it aborts `root`. */
  lemma RootAbortsOnFailure(state: AppState, exchange: Request -> Upstream, now: string,
                            parseTime: string -> Option<Timestamp>)
    requires exchange(UpstreamRequest(state)).Received?
    requires exchange(UpstreamRequest(state)).body.Err?
             || DecodeAllDevices(exchange(UpstreamRequest(state)).body.value, parseTime).Err?
    ensures Root(state, exchange, now, parseTime) == Panicked(AtJson)
  {
  }

  /**
   * The two-laptop answer `{"devices":[{"alias":"Laptop1","online_state":"Online"},{"alias":"Laptop2"}]}`
   * renders Laptop1 online and then Laptop2 offline.
   */
  lemma TwoLaptops(state: AppState, exchange: Request -> Upstream, now: string, parseTime: string -> Option<Timestamp>)
    requires exchange(UpstreamRequest(state)) == Received(Ok(JObject([("devices", JArray([
               JObject([("alias", JString("Laptop1")), ("online_state", JString("Online"))]),
               JObject([("alias", JString("Laptop2"))])]))])))
    ensures Root(state, exchange, now, parseTime).Rendered?
    ensures var devices := Root(state, exchange, now, parseTime).page.devices;
            |devices| == 2
            && devices[0].alias == Some("Laptop1") && devices[0].onlineState == Online
            && devices[1].alias == Some("Laptop2") && devices[1].onlineState == Offline
  {
    var items := [JObject([("alias", JString("Laptop1")), ("online_state", JString("Online"))]),
                  JObject([("alias", JString("Laptop2"))])];
    AliasAndStateDecode("Laptop1", parseTime);
    AliasAloneDecodes("Laptop2", parseTime);
    RootKeepsUpstreamOrder(state, exchange, now, parseTime, [("devices", JArray(items))], items);
  }

  /** The field values of a record with no field set. */
  function NoFields(): RawFields {
    RawFields(None, None, None, None, None, None, None, None, None, None, None, None)
  }

  /** The field values of `{"alias": a, "online_state": s}`; no field of it is duplicated. */
  lemma AliasAndStateFields(alias: string, state: string)
    ensures FieldValues([("alias", JString(alias)), ("online_state", JString(state))])
            == NoFields().(alias := Some(JString(alias)), onlineState := Some(JString(state)))
    ensures FirstDuplicate(DEVICE_FIELDS, [("alias", JString(alias)), ("online_state", JString(state))]) == None
  {
  }

  /** The field values of `{"alias": a}`; no field of it is duplicated. */
  lemma AliasAloneFields(alias: string)
    ensures FieldValues([("alias", JString(alias))]) == NoFields().(alias := Some(JString(alias)))
    ensures FirstDuplicate(DEVICE_FIELDS, [("alias", JString(alias))]) == None
  {
  }

  /** `{"alias": a, "online_state": "Online"}` decodes to an online record named a with nothing else set. */
  lemma AliasAndStateDecode(alias: string, parseTime: string -> Option<Timestamp>)
    ensures DecodeDevice(JObject([("alias", JString(alias)), ("online_state", JString("Online"))]), parseTime)
         == Ok(GetDeviceResponse(None, None, None, Some(alias), None, None, Online, None, None, None, None, None))
  {
    var e := [("alias", JString(alias)), ("online_state", JString("Online"))];
    AliasAndStateFields(alias, "Online");
    ObjectDecodesFields(e, parseTime);
    DecodeFieldsExact(FieldValues(e), parseTime);
  }

  /** `{"alias": a}` decodes to an offline record named a with nothing else set. */
  lemma AliasAloneDecodes(alias: string, parseTime: string -> Option<Timestamp>)
    ensures DecodeDevice(JObject([("alias", JString(alias))]), parseTime)
         == Ok(GetDeviceResponse(None, None, None, Some(alias), None, None, Offline, None, None, None, None, None))
  {
    var e := [("alias", JString(alias))];
    AliasAloneFields(alias);
    ObjectDecodesFields(e, parseTime);
    DecodeFieldsExact(FieldValues(e), parseTime);
  }
}
