# teamviewer-monitor, modelled in Dafny

teamviewer-monitor is a small web service with one page. On `GET /` it asks
the TeamViewer web API for the list of devices, decodes the JSON answer into
device records, and renders them together with the current time. A script on
the page sorts the device table when a sortable column header is clicked.

This project models three parts of it:

- **Decoding the directory's answer** (modules `Json`, `Devices`,
  `DevicesProperties`). A `GetAllDevicesResponse` holds a list of
  `GetDeviceResponse` records. The model follows the serde rules that the
  derived `Deserialize` implementations apply:
  - every `Option` field is `None` when absent or `null`;
  - `online_state` falls back to `Offline` only when the key is absent. A
    `null` or an unrecognised name is an error. The variant may be written
    as a bare string or as `{"Online": null}`;
  - a known key given twice is an error, and unknown keys are ignored;
  - a record may also be written as a JSON array. A device must then have
    all twelve fields in declaration order; a response has zero elements or
    one (the `devices` field);
  - `teamviewer_id` must be an integer within the range of `i64`;
  - `last_seen` must be a string that the date parser accepts.

  `DevicesProperties` defines, field by field, which values are acceptable
  (`WellShapedDevice`) and what each one reads as (`ResolvedDevice`). It
  proves that the decoder accepts exactly those records and produces exactly
  that reading.
- **The request handler and its errors** (modules `Gateway`,
  `GatewayProperties`):
  - classification of a client error into `AppError`, and the HTTP response
    built from it;
  - the outgoing request;
  - the outcome of `root`: a rendered page, or an abort at one of its two
    `unwrap`s.
- **The table sort** (modules `TableSort`, `TableSortProperties`):
  - the value a cell sorts by and the comparison of two rows;
  - the per-header direction marker;
  - the click handler, as a method over an array of header markers and an
    array of body rows. The method sorts the rows in place.

  The proofs cover:
  - how the direction toggles from one click to the next;
  - that the rows are always a permutation of the rows before;
  - that they are sorted whenever the comparison is consistent on them;
  - for which columns the comparison is consistent: all-numeric columns
    always, all-text columns whenever the collation is.

Four consequences of the code are worth stating, since a reader might
expect otherwise:

- An `online_state` that is present but unrecognised, or `null`, fails to
  decode; it does not resolve to `Offline` (`PresentStateNamesVariant`,
  `NullStateRejected`). Only a missing key gives `Offline`
  (`MissingStateIsOffline`). The enum has no catch-all variant, and
  `#[serde(default)]` only covers absence.
- `root` never produces an `AppError`. A failed exchange or a failed decode
  aborts the handler at an `unwrap` (`Root`, `RootAbortsOnFailure`). So the
  500 response with an error description is not what `GET /` returns on
  failure. `AppError` and its response exist, but nothing on this path uses
  them.
- An error status from the directory is not a failure of the exchange:
  reqwest's `send()` succeeds on any HTTP status, so an answer such as a 401
  for a bad token is a received body and is decoded like any other. An error
  object without `devices` renders an empty page (`RootWithoutDevicesKey`).
- For the same client error both kinds of `AppError` give the same response,
  status 500 with the error's text (`ClassificationInvisibleInResponse`); only
  the client's error text tells them apart.

## Model

| member | source | states |
|---|---|---|
| Json.Count | src/main.rs:23-39 | how often a key occurs among an object's entries; zero exactly when no entry has the key |
| Json.Lookup | src/main.rs:23-39 | the value of a key is absent exactly when the key does not occur, and a present value is one of the object's entries |
| Json.InsertOtherKey | src/main.rs:23-39 | inserting an entry with another key changes neither the count nor the value of a key |
| Devices.FirstDuplicate | src/main.rs:23-39 | a reported duplicate is a device field given more than once; none is reported exactly when every field occurs at most once |
| Devices.DecodeVec | src/main.rs:41-46 | a list decodes exactly when every element does, to one value per element, in order |
| Devices.DecodeOptString | src/main.rs:25-30 | no contract of its own; specified by `DevicesProperties.StringFieldExact` |
| Devices.DecodeOptBool | src/main.rs:35 | no contract of its own; specified by `DevicesProperties.BoolFieldExact` |
| Devices.DecodeOptI64 | src/main.rs:38 | no contract of its own; specified by `DevicesProperties.I64FieldExact` |
| Devices.DecodeOptTimestamp | src/main.rs:37 | no contract of its own; specified by `DevicesProperties.TimestampFieldExact` |
| Devices.VariantNamed | src/main.rs:16-21 | no contract of its own; specified by `DevicesProperties.StateFieldExact` and `DevicesProperties.PresentStateNamesVariant` |
| Devices.DecodeOnlineState | src/main.rs:16-21 | no contract of its own; specified by `DevicesProperties.StateFieldExact`, `DevicesProperties.PresentStateNamesVariant` and `DevicesProperties.NullStateRejected` |
| Devices.DecodeFields | src/main.rs:23-39 | no contract of its own; specified by `DevicesProperties.DecodeFieldsExact` |
| Devices.DecodeDeviceObject | src/main.rs:23-39 | no contract of its own; specified by `DevicesProperties.DeviceObjectExact`, `DevicesProperties.DeviceIgnoresUnknownKey` and `DevicesProperties.SameFieldsSameDevice` |
| Devices.DecodeDeviceArray | src/main.rs:23-39 | no contract of its own; specified by `DevicesProperties.PositionalMatchesNamed` and `DevicesProperties.PositionalNeedsEveryField` |
| Devices.DecodeDevice | src/main.rs:23-39 | no contract of its own; specified by `DevicesProperties.DeviceObjectExact`, `DevicesProperties.WellShapedDecodes`, `DevicesProperties.PositionalMatchesNamed` and the `online_state` lemmas |
| Devices.DecodeDeviceList | src/main.rs:45 | no contract of its own; specified by `Devices.DecodeVec`, `DevicesProperties.NonArrayDevicesRejected` and `DevicesProperties.DevicesInUpstreamOrder` |
| Devices.DecodeAllDevices | src/main.rs:41-46 | no contract of its own; specified by `DevicesProperties.DevicesInUpstreamOrder`, `DevicesProperties.MissingDevicesIsEmpty`, `DevicesProperties.NonArrayDevicesRejected` and `DevicesProperties.PositionalResponse` |
| DevicesProperties.StringFieldExact | src/main.rs:25-30 | an `Option<String>` field accepts absence, `null` or a string, each read as its value |
| DevicesProperties.BoolFieldExact | src/main.rs:35 | `assigned_to` accepts absence, `null` or a boolean |
| DevicesProperties.I64FieldExact | src/main.rs:38 | `teamviewer_id` accepts absence, `null` or an integer within the range of `i64` |
| DevicesProperties.TimestampFieldExact | src/main.rs:37 | `last_seen` accepts absence, `null` or a string the date parser accepts, read as the parsed time |
| DevicesProperties.StateFieldExact | src/main.rs:31-33 | `online_state` accepts absence (read as `Offline`), a variant name, or a one-entry object mapping a variant name to `null` |
| DevicesProperties.DecodeFieldsExact | src/main.rs:23-39 | the twelve field values decode exactly when each is acceptable, to their field-by-field reading |
| DevicesProperties.DeviceObjectExact | src/main.rs:23-39 | a device object decodes exactly when it repeats no field and every field is acceptable, and then to its field-by-field reading |
| DevicesProperties.WellShapedDecodes | src/main.rs:23-39 | an acceptable device object decodes to its field-by-field reading |
| DevicesProperties.DecodedState | src/main.rs:31-33 | a decoded record's state is the reading of its `online_state` entry |
| DevicesProperties.MissingStateIsOffline | src/main.rs:31-33 | a record without `online_state` decodes as `Offline` |
| DevicesProperties.PresentStateNamesVariant | src/main.rs:16-33 | a present state string that names no variant is an error; otherwise the record has the variant it names |
| DevicesProperties.NullStateRejected | src/main.rs:31-33 | a `null` state is an error, not the default |
| DevicesProperties.DeviceIgnoresUnknownKey | src/main.rs:23-39 | inserting an entry whose key is not a device field anywhere in an object does not change its decoding |
| DevicesProperties.SameFieldsSameDevice | src/main.rs:23-39 | two objects with the same duplicates and the same values for every device field decode alike |
| DevicesProperties.PositionalMatchesNamed | src/main.rs:23-39 | a twelve-element array decodes like the object naming its elements in declaration order |
| DevicesProperties.PositionalNeedsEveryField | src/main.rs:23-39 | an array of any other length than twelve is not a device |
| DevicesProperties.MissingDevicesIsEmpty | src/main.rs:43-45 | a response without `devices` decodes to an empty list |
| DevicesProperties.NonArrayDevicesRejected | src/main.rs:45 | a `devices` value that is not an array, `null` included, is an error |
| DevicesProperties.DevicesInUpstreamOrder | src/main.rs:41-46 | with a `devices` array, the response decodes exactly when the key occurs once and every element decodes, to one record per element in upstream order |
| DevicesProperties.PositionalResponse | src/main.rs:41-46 | a response written as an array has no element (empty list), one (the list) or is an error |
| DevicesProperties.ResponseIsDeviceList | src/main.rs:41-46 | with a `devices` array, the response is the decoding of that array, provided the key is not repeated |
| Gateway.FromHttpError | src/main.rs:59-67 | a decode failure becomes `ApiResponseError`, any other failure `RequestError`, both keeping the error |
| Gateway.IntoResponse | src/main.rs:69-81 | every `AppError` is answered with status 500 and the error's text |
| Gateway.Root | src/main.rs:98-111 | the page is rendered exactly when the exchange and the decoding succeed, with the clock reading and the decoded list unchanged; a failed send aborts at the first `unwrap` |
| GatewayProperties.ClassificationInvisibleInResponse | src/main.rs:69-81 | both error kinds are answered identically, 500 with the error's text |
| GatewayProperties.RootKeepsUpstreamOrder | src/main.rs:98-111 | with a `devices` array, the page is rendered exactly when every element decodes and `devices` is given once, and lists one record per element in upstream order |
| GatewayProperties.RootWithoutDevicesKey | src/main.rs:98-111 | an answer without `devices` renders an empty page |
| GatewayProperties.RootAbortsOnFailure | src/main.rs:103-106 | a body that cannot be read or decoded aborts at the second `unwrap` |
| GatewayProperties.TwoLaptops | src/main.rs:98-111 | the two-laptop answer renders Laptop1 online and then Laptop2 offline |
| GatewayProperties.AliasAndStateDecode | src/main.rs:23-39 | `{"alias": a, "online_state": "Online"}` decodes to an online record named a with nothing else set |
| GatewayProperties.AliasAloneDecodes | src/main.rs:31-33 | `{"alias": a}` decodes to an offline record named a with nothing else set |
| TableSort.CellValue | static/main.js:1-12 | without a lone time or data child with a value, a cell sorts by its rendered text or its text content; the value is empty only when both the machine-readable value and the rendered text are |
| TableSort.GetCellValue | static/main.js:1-12 | a row yields a value exactly when it has a cell at the index, and that value is the cell's |
| TableSort.RowComparator | static/main.js:14-21 | two rows compare exactly when both have a cell at the index |
| TableSort.CompareValues | static/main.js:17-20 | no contract of its own; specified by `TableSortProperties.NumericPrecedes`, `TableSortProperties.TextPrecedes` and the consistency lemmas |
| TableSort.DirectedComparator | static/main.js:31 | no contract of its own; specified by `TableSortProperties.NumericPrecedes`, `TableSortProperties.TextPrecedes` and `TableSortProperties.DescendingReversesNumbers` |
| TableSort.DirectionUsed | static/main.js:24 | the direction is the stored marker, or "ascending" when none or an empty one is stored |
| TableSort.SortOrder | static/main.js:31 | a click sorts ascending exactly when the direction is "ascending" |
| TableSort.NextMarker | static/main.js:26 | the stored marker names the order opposite to the direction just used |
| TableSort.MarkersAfterClick | static/main.js:24-26 | after a click only the clicked header carries a marker: the opposite of the direction that click used |
| TableSort.ClearMarkers | static/main.js:25 | every header's marker is removed |
| TableSort.SortRows | static/main.js:30-32 | the rows end up a permutation of the rows before, sorted by the directed comparison whenever it is consistent on them |
| TableSort.InsertAt | static/main.js:30-32 | one insertion step keeps the rows a permutation and extends the sorted prefix by one row |
| TableSort.SortColumn | static/main.js:23-33 | the markers move as `MarkersAfterClick` says; with two or more rows of which one lacks the column the sort throws and the rows stay unchanged; otherwise the rows are a permutation of the rows before, sorted by the clicked column in the stored direction whenever the comparison is consistent |
| TableSortProperties.UnmarkedSortsAscending | static/main.js:24 | a click sorts ascending exactly when the header is unmarked, has an empty marker or is marked "ascending" |
| TableSortProperties.RepeatedClicksAlternate | static/main.js:24-31 | every click on the same header sorts in the order opposite to the click before |
| TableSortProperties.TwoClicksRestoreMarkers | static/main.js:24-26 | two further clicks on a header bring the markers back to where one click left them |
| TableSortProperties.ClickElsewhereResets | static/main.js:25-26 | a click on another header clears this header's marker, so its own next click sorts ascending |
| TableSortProperties.MachineValueWins | static/main.js:3-9 | a lone time or data child with a non-empty value decides the cell's value, whatever the text |
| TableSortProperties.TextFallback | static/main.js:11 | otherwise the rendered text decides, or the text content when nothing is rendered |
| TableSortProperties.OnlySortColumnMatters | static/main.js:14-16 | two rows compare by their cells in the sort column alone |
| TableSortProperties.NumericPrecedes | static/main.js:17-19 | between numeric cells the order is by numeric value, reversed for a descending sort |
| TableSortProperties.NumericColumnConsistent | static/main.js:17-19 | a column of numbers is ordered consistently in either direction |
| TableSortProperties.SortedNumbersAreMonotone | static/main.js:30-31 | a sorted column of numbers ascends or descends by value |
| TableSortProperties.TextPrecedes | static/main.js:17-20 | when either cell is not numeric the order is the collation's, reversed for a descending sort |
| TableSortProperties.TextColumnConsistent | static/main.js:20 | a column without numbers is ordered consistently whenever the collation is a consistent comparator |
| TableSortProperties.DescendingReversesNumbers | static/main.js:31 | on numbers, the descending order is the ascending order read backwards |

## Left out

- The HTTP plumbing is not modelled: the router, the static file service, the socket listener and the server loop (src/main.rs:113-135). They are framework wiring with no logic of their own.
- Reading `TEAMVIEWER_TOKEN` from the environment (src/main.rs:117) is outside the model. The token is a field of `AppState`.
- The network exchange (src/main.rs:99-106) is a parameter `exchange`. It maps the request to a send failure, or to a received body that either parses as JSON or fails with an error saying why reading or parsing it failed (only a parse failure is a decode error).
- The clock (src/main.rs:108) is a parameter `now`. Date parsing for `last_seen` is a parameter `parseTime`.
- The template rendering and the `debug` filter (src/main.rs:83-96) are not modelled. The page is the `IndexTemplate` value handed to the renderer.
- The text of an error is a field of `HttpError`; how reqwest formats it is not modelled.
- JSON text is not modelled: the model starts from a parsed JSON value. JSON floats are a constructor that every field rejects; the parser yields one for `-0` as well, so `JInt` never holds a `-0` literal.
- DevicesProperties.DeviceObjectExact: states whether a record decodes and to what, but not which `DecodeError` is reported when several fields are wrong. serde reports the first error in document order; the model checks fields in declaration order.
- Devices.DecodeDeviceArray: the positional form reports only that there were too few elements or trailing ones; serde's exact error codes are not modelled.
- Registering the click listeners (static/main.js:35-37) and the DOM itself are not modelled. The header row is an array of optional markers; the body is an array of rows of cells.
- `isNaN` and floating-point subtraction (static/main.js:17-18) are replaced by a parameter `toNumber` that reads a string as an integer or fails. `localeCompare` (static/main.js:20) is a parameter `localeCompare`. Fractional numbers, `NaN` and infinities are not modelled.
- TableSort.SortColumn: assumes one `tbody` whose rows are exactly the rows being sorted. It also assumes the header row is not inside the `tbody`. The header index is the clicked header's position.
- TableSort.SortColumn: when the comparison throws (two or more rows, one without the column), the model detects this before sorting rather than midway. The observable result is the same: markers updated, rows unchanged.
- TableSort.SortRows: stability (rows that compare equal keep their relative order, as required of `Array.prototype.sort`) is not stated. The order produced under an inconsistent comparator is not stated either; the language leaves it to the implementation, and the model promises only a permutation.
- TableSortProperties.TextColumnConsistent: columns that mix numeric and non-numeric values are not covered. For them the comparison switches between numeric and collation order from pair to pair.
