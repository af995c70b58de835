# BoostKYC demo app: result flattener and backend emulator, in Dafny

This project models the two pieces of self-contained logic in the BoostKYC demo app.

* **The result flattener** (`ResultRow`) turns a final verification result, which is a JSON
  object, into the rows of the result table. There is one header per top-level key, in ascending key
  order. Each header is followed by the key/value rows of that key's value. Object members are
  listed in ascending key order and array elements are labelled `[i]`. Each nesting level adds a
  two-space indent. A nested container shows as a row with no value.
* **The backend emulator** (`BackendEmulator`) covers four pieces:
  - the recursive `in_progress` detector;
  - the decision `getFullResults` takes on each reply: retry with the same token, complete with the
    object, or fail;
  - a polling run over a finite list of replies;
  - `createSession` and its guards, including the `x-session-token` key mapping and the
    `BackendError` cases.

Each HTTP round trip is abstracted into a `Response` value: the transport error and the body, each
possibly absent. The body is either parsed JSON or a parse error.

Files:

* `wrappers.dfy`: `Option`, `Result`.
* `json.dfy`: the JSON value type. Objects are `map<string, Value>`, since a Swift
  `[String: Any]` has unique keys and no order. This file also defines paths into a document
  (`At`).
* `string_order.dfy`: the order `sorted()` puts keys in, and `SortedKeys`, the ascending list of a
  key set. It also proves that there is only one strictly sorted listing of a set.
* `decimal.dfy`: the decimal rendering of array indices, with its parse-back round trip.
* `result_row.dfy`: `ResultRow.swift`.
* `backend_emulator.dfy`: `BackendEmulator.swift`.

The model follows the code on four points where a reader might expect otherwise:

* A final reply whose top level is an array fails with `BackendError.invalidJson`. There is no
  separate error for an unexpected shape.
* `getFullResults` calls `JSONSerialization.jsonObject` without `.fragmentsAllowed`, so a body
  whose top level is a bare string, number, boolean or null is refused as a parse error
  (`FragmentRejected`). Even a bare `"in_progress"` body completes with that error; it is not
  retried. In the model such a body is `Parsed`, and `Decide` refuses it itself.
* In `getFullResults`, a body that `JSONSerialization` cannot parse completes with the parse
  error itself, rethrown unchanged (`CompletionError.Parse`). It is not mapped to a
  `BackendError`. In `createSession`, by contrast, a decoding failure becomes `invalidJson`.
* `flatten` gives a bare scalar the key `""` whatever indent it is called with. So "every key
  starts with the indent" holds for containers only. A bare scalar reaches `flatten` only at
  top level, where the indent is `""`, so the table never shows the difference.

## Model

| member | source | states |
|---|---|---|
| `ResultRow.Build` | BoostKYC_DemoApp/BoostKYC_DemoApp/ResultVC/ResultRow.swift:19-37 | the table is empty exactly when the document has no keys, has at least one row per key, and starts with a header |
| `ResultRow.BuildHeaders` | BoostKYC_DemoApp/BoostKYC_DemoApp/ResultVC/ResultRow.swift:19-25 | the header titles are exactly the sorted key list of the document, so there is one header per top-level key, in strictly ascending order, none repeated |
| `ResultRow.BuildSections` | BoostKYC_DemoApp/BoostKYC_DemoApp/ResultVC/ResultRow.swift:27-33 | reading the table back section by section gives, for each key in order, exactly the rows of flattening its value, and nothing else before the next header |
| `ResultRow.BuildNestedObjectExample` | BoostKYC_DemoApp/BoostKYC_DemoApp/ResultVC/ResultRow.swift:19-56 | `{"b": 1, "a": {"z": true, "y": null}}` gives header a, (y, Null), (z, true), header b, ("", 1) |
| `ResultRow.BuildArrayExample` | BoostKYC_DemoApp/BoostKYC_DemoApp/ResultVC/ResultRow.swift:57-67 | `{"list": [1, {"k": "v"}]}` gives header list, ([0], 1), ([1], absent), ("  k", v) |
| `ResultRow.Flatten` | BoostKYC_DemoApp/BoostKYC_DemoApp/ResultVC/ResultRow.swift:39-73 | every row of a flattened container has a key beginning with the indent; a bare scalar gives one row with an empty key and a present value |
| `ResultRow.FlattenFields` | BoostKYC_DemoApp/BoostKYC_DemoApp/ResultVC/ResultRow.swift:45-56 | every row for an object's members has a key beginning with the indent |
| `ResultRow.FlattenItems` | BoostKYC_DemoApp/BoostKYC_DemoApp/ResultVC/ResultRow.swift:58-67 | every row for an array's elements has a key beginning with the indent |
| `ResultRow.Child` | BoostKYC_DemoApp/BoostKYC_DemoApp/ResultVC/ResultRow.swift:50-55 | a child's first row carries its display key, with no value exactly when the child is a container (an object or an array, as `isContainer` at lines 75-77 decides); a scalar child gives exactly one row showing its formatted value; a container's row is followed by exactly its own flattening one level (two spaces) deeper |
| `ResultRow.FlattenObject` | BoostKYC_DemoApp/BoostKYC_DemoApp/ResultVC/ResultRow.swift:42-56 | an object's rows are its children's rows in ascending key order, the child under key k labelled indent + k |
| `ResultRow.FlattenArray` | BoostKYC_DemoApp/BoostKYC_DemoApp/ResultVC/ResultRow.swift:57-67 | an array's rows are its elements' rows in index order, element i labelled indent + "[i]" |
| `ResultRow.FlattenEmpty` | BoostKYC_DemoApp/BoostKYC_DemoApp/ResultVC/ResultRow.swift:42-67 | an empty object or array yields no rows, so its header is followed by nothing |
| `ResultRow.FlattenScalar` | BoostKYC_DemoApp/BoostKYC_DemoApp/ResultVC/ResultRow.swift:68-70 | a bare scalar yields the single row ("", its formatted value) |
| `ResultRow.FlattenShift` | BoostKYC_DemoApp/BoostKYC_DemoApp/ResultVC/ResultRow.swift:48-63 | indentation only prefixes keys: flattening a container at p + q equals flattening it at q with p put before every key |
| `ResultRow.FormatValue` | BoostKYC_DemoApp/BoostKYC_DemoApp/ResultVC/ResultRow.swift:79-87 | null shows as "Null", booleans as "true"/"false", strings and numbers as their own text; the result is never absent |
| `ResultRow.IndexLabel` | BoostKYC_DemoApp/BoostKYC_DemoApp/ResultVC/ResultRow.swift:59 | an element label is the decimal digits of the index, in brackets: the text between the brackets is all digits, has no leading zero, and reads back as the index |
| `ResultRow.IndexLabelInjective` | BoostKYC_DemoApp/BoostKYC_DemoApp/ResultVC/ResultRow.swift:59 | distinct array positions get distinct labels |
| `Decimal.ParseNatToString` | BoostKYC_DemoApp/BoostKYC_DemoApp/ResultVC/ResultRow.swift:59 | the decimal digits of an index read back as the index |
| `StringOrder.SortedKeys` | BoostKYC_DemoApp/BoostKYC_DemoApp/ResultVC/ResultRow.swift:22 | the sorted key list is strictly ascending and holds exactly the keys of the set |
| `StringOrder.StrictlySortedUnique` | BoostKYC_DemoApp/BoostKYC_DemoApp/ResultVC/ResultRow.swift:43 | only one strictly ascending sequence lists a given set of keys, so the order of the rows is determined by the document alone |
| `BackendEmulator.ErrorDescriptionInjective` | BoostKYC_DemoApp/BoostKYC_DemoApp/BackendEmulator.swift:28-36 | distinct error cases have distinct descriptions; a network description gives back its cause's localized text |
| `BackendEmulator.Received` | BoostKYC_DemoApp/BoostKYC_DemoApp/BackendEmulator.swift:136-148 | a transport error is reported as `network` before the body is looked at; a missing body gives `noData`; only otherwise is the body handed on |
| `BackendEmulator.DecodeSessionToken` | BoostKYC_DemoApp/BoostKYC_DemoApp/BackendEmulator.swift:13-18 | decoding succeeds exactly when the document is an object whose `x-session-token` member is a string, and yields that string |
| `BackendEmulator.DecodeEncodeSessionToken` | BoostKYC_DemoApp/BoostKYC_DemoApp/BackendEmulator.swift:13-18 | a token document decodes back to its token, whatever other members it has |
| `BackendEmulator.CreateSession` | BoostKYC_DemoApp/BoostKYC_DemoApp/BackendEmulator.swift:73-118 | no API key means `apiKeyNotConfigured` and no request; with a key and an invalid URL, `invalidUrl` and no request; with a key and a valid URL, exactly one POST to the session path carrying the key in `x-api-key`; success only with the token under `x-session-token`; transport and empty-body replies give `network` and `noData`; an unparsable reply, and a parsed one without a string `x-session-token` member, give `invalidJson` |
| `BackendEmulator.CreateSessionReturnsToken` | BoostKYC_DemoApp/BoostKYC_DemoApp/BackendEmulator.swift:108-111 | a clean reply carrying a token document completes with exactly that token |
| `BackendEmulator.ContainsInProgressStatus` | BoostKYC_DemoApp/BoostKYC_DemoApp/BackendEmulator.swift:184-209 | the loop-and-early-return detector answers as the structural definition does, for any visiting order of object members; numbers, booleans and null are never in progress |
| `BackendEmulator.InProgressPath` | BoostKYC_DemoApp/BoostKYC_DemoApp/BackendEmulator.swift:186-206 | when the detector fires, some path of member names and indices leads to the string `in_progress` |
| `BackendEmulator.PathInProgress` | BoostKYC_DemoApp/BoostKYC_DemoApp/BackendEmulator.swift:186-206 | a string `in_progress` reachable along any path makes the detector fire |
| `BackendEmulator.ContainsInProgressIffReachable` | BoostKYC_DemoApp/BoostKYC_DemoApp/BackendEmulator.swift:184-209 | the detector fires exactly when the exact string `in_progress` occurs as a value somewhere in the document |
| `BackendEmulator.KeysNotInspected` | BoostKYC_DemoApp/BoostKYC_DemoApp/BackendEmulator.swift:191-197 | keys are never inspected: objects with the same member values get the same verdict |
| `BackendEmulator.DetectorExamples` | BoostKYC_DemoApp/BoostKYC_DemoApp/BackendEmulator.swift:184-209 | a nested `in_progress` is found; the same shape without it is not; a key named `in_progress` does not count |
| `BackendEmulator.Decide` | BoostKYC_DemoApp/BoostKYC_DemoApp/BackendEmulator.swift:136-175 | the decision on one reply is: retry with the same token exactly when the parsed body is an object or array in progress; a final object completes with success carrying exactly its members, and success comes from nothing else; a final array gives `invalidJson`; a top-level scalar gives the fragment parse error; transport, empty-body and parse failures complete with `network`, `noData` and the parse error |
| `BackendEmulator.Poll` | BoostKYC_DemoApp/BoostKYC_DemoApp/BackendEmulator.swift:120-178 | every request of a run is the same GET carrying the token; there are no more requests than replies; with a valid URL, a run ends without an outcome exactly when every reply asked for a retry; with an invalid one it ends with `invalidUrl` and no request |
| `BackendEmulator.PollStopsAtFirstFinal` | BoostKYC_DemoApp/BoostKYC_DemoApp/BackendEmulator.swift:155-171 | a run issues one request per reply up to and including the first one that does not ask for a retry, and completes as that reply decides |
| `BackendEmulator.PollExample` | BoostKYC_DemoApp/BoostKYC_DemoApp/BackendEmulator.swift:155-167 | two in-progress replies and then a final object give three requests and success with that object |
| `BackendEmulator.FinalArrayIsInvalid` | BoostKYC_DemoApp/BoostKYC_DemoApp/BackendEmulator.swift:164-171 | a final top-level array completes with `invalidJson` after one request |
| `BackendEmulator.BareSentinelIsNotRetried` | BoostKYC_DemoApp/BoostKYC_DemoApp/BackendEmulator.swift:150-174 | a body that is only the string `in_progress` is refused as a fragment after one request, not retried |

## Left out

- The UI files are view controllers and table-view plumbing. `ResultVC.swift`'s only logic is the call to `ResultRow.build` (line 37); `StartVC.swift` only configures and starts the verification SDK and shows alerts.
- The verification SDK and `Package.swift`: the SDK is a prebuilt binary and the manifest declares no logic.
- URLSession, the round trip and `JSONSerialization`/`JSONDecoder` parsing are replaced by `Response` and `Body` values. A `URLRequest` becomes a `Request` record (verb, URL, headers). `URL(string:)` on the constant endpoint becomes the flag `urlValid`.
- The `[weak self]` early return in both completion handlers, which would skip the completion altogether, is dropped: the emulator is the static singleton `shared` and is never released.
- `configure(apiKey:)` stores process-wide configuration. The key is an `Option<string>` argument instead.
- The 5-second `asyncAfter` delay and the scheduling are left out, because they are concurrency and timing.
- Poll: runs over a finite list of replies; the real loop retries without bound, and nothing is claimed about its termination.
- The `print` diagnostics are left out, because they are observability only.
- Number rendering (`"\(value)"`, including floating point) is left out. A `Number` carries the text it renders as.
- A transport error is modelled by its localized description only (`NetworkCause`). Two distinct Swift errors with the same localized text are the same error here.
- The exact text of `FragmentRejected` is Foundation's and is not part of this model's claims; only that the top-level scalar completes with that parse error is.
- NSNumber-to-Bool bridging is left out. Booleans and numbers are distinct variants. In the app, a number 0 or 1 from JSONSerialization is likely to pass the `as? Bool` test and show as "false"/"true"; the `1` in `BuildNestedObjectExample` and `BuildArrayExample` shows as "1" because those examples follow the distinct-variant model.
- Swift's `String` comparison is modelled as lexicographic order on character codes. Unicode canonical equivalence is not modelled.
- FormatValue: defined on scalars only. The source calls it only on non-containers, and Swift's description of a container is not modelled.
