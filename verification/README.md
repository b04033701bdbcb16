# AViShaOTA firmware-update service, modelled in Dafny

AViShaOTA is an ESP32 library that lets a device take new firmware two ways.
A companion tool can push it over the ArduinoOTA protocol, or a browser can
upload it as a multipart form to `/update`. This project models the part of
the `AViShaOTA` class that decides what happens to an upload:

- the per-chunk upload handler `handleUpdate`. It gates each FILE_START with the
  update password, keeps two function-static flags (`passwordChecked`,
  `passwordValid`) across calls, and forwards chunks to the platform's
  firmware-update sink (`Update.begin/write/end`);
- the completion handler `handleUpdateFinish`, which answers the browser
  and restarts the device whenever the sink reports no error;
- the lookup of the received password among the decoded form fields;
- the object's fields and constructor defaults, the `Config()` defaults, the
  callback slots (last registration wins), `begin`'s early returns, the
  `handle()` pump guard, `end()`, the ArduinoOTA start/end/progress/error
  handlers, the WiFi event dispatch, and `getUploadURL`.

Modules, one per concern of the source:

| file | module | models |
|---|---|---|
| optional.dfy | Optional | `Option`, for null pointers and failed lookups |
| config.dfy | OtaConfig | the header's default macros and `Config()` |
| form_args.dfy | FormArgs | the received-password lookup and the password comparison |
| effects.dfy | Effects | the observable effects: responses, callback invocations, sink calls, restart |
| web_upload.dfy | WebUpload | `handleUpdate` / `handleUpdateFinish` as the functions `Step` / `Finish`, with their properties |
| upload_url.dfy | UploadUrl | `getUploadURL` and a parser that reads its URL back |
| service.dfy | Service | the class `AViShaOta`: fields, setters, lifecycle, event handlers, upload handlers |

Everything the object does that can be seen from outside goes into one
ordered log, `effects`. That covers HTTP status codes sent, callbacks invoked
(only when their slot is set), calls on the update sink, and the restart. One
log keeps the order between these, for example "start callback, then
`Update.begin`", or "200, then the end callback, then restart".

The update sink (`Update`) is a platform library. The model sees only its
interface. Each upload event carries the sink's answer to the call it
triggers: whether begin succeeded, how many bytes write accepted, and what end
returned. The sink's error flag (`Update.hasError()`) is not the object's
state. The model ASSUMES it follows one rule: a failed call sets it, a
successful begin clears it, and other successful calls leave it alone. It
also assumes the flag is clear when the object is constructed. The ESP32
library does not always follow this rule (see "## Left out").

The web server's by-name lookup `hasArg("password")`/`arg("password")` is
also a library call. It searches more than the indexed arguments that
`args()`/`argName(i)`/`arg(i)` show. So a request's `Form` carries both the
indexed arguments (a sequence of name/value pairs) and the by-name lookup's
answer.

The class methods `HandleUpdate` and `HandleUpdateFinish` run the source's
steps imperatively. They are proved to leave the object in the state that
`WebUpload.Step` and `WebUpload.Finish` compute. In the source they are only
reached through `handle()`, which calls `server->handleClient()`. The model
lets them be called in any state, whatever `isInitialized` and `hasServer`
are. That is a safe over-approximation: every property about them holds in
all states, including the ones the source can reach. The upload properties are
lemmas about those functions and about `Run`, which applies `Step` to a
sequence of events.

The code departs from an idealised single-flight upload protocol in these ways,
and the model follows the code:

- Nothing rejects a second upload while one is in progress.
  No handler reads `webUpdateInProgress`; only the getter
  `isWebUpdateInProgress()` returns it (`WebUpload.AuthorisedStart` has no
  requirement on it).
- A failed `Update.begin` or a short write leaves both password flags set.
  Later chunks and the end are still forwarded to the sink
  (`WebUpload.AuthorisedWritesAllForwarded`).
- A repeated FILE_END after a failure is forwarded again (`WebUpload.AuthorisedEnd`).
- A password mismatch does not touch `webUpdateInProgress`.
- Neither upload handler reads `otaInProgress`, so nothing refuses a browser
  upload while an ArduinoOTA push is running. Only `Update.begin` refusing a
  second update keeps the two apart, and the model takes begin's answer as
  an input. `WebUpload.Context` does not hold `otaInProgress`, and the frames of
  `Service.AViShaOta.HandleUpdate` and `Service.AViShaOta.HandleUpdateFinish`
  leave it out.
- A failed web upload does not reach an "error" callback. Only the web-update
  end callback reports it, with `false`.
- The code keeps no byte counter. The model counts the bytes handed to the
  sink from the effects log (`Effects.BytesForwarded`).

## Model

| member | source | states |
|---|---|---|
| OtaConfig.DefaultConfig | src/AViShaOTA.h:167-175 | `Config()` defaults: hostname "AViShaOTA_ESP32", no password (authentication off), port 80, mDNS, serial debug and auto-reconnect on, WiFi timeout 30000 and upload timeout 300000 |
| FormArgs.FirstIndexOf | src/AViShaOTA.cpp:347-352 | the index where the scan stops: every argument before it has a different name, and the argument there (if any) is the one searched for |
| FormArgs.ReceivedPasswordCases | src/AViShaOTA.cpp:336-353 | the received password is the by-name lookup if that is non-empty; otherwise the value of the first argument named "password" in argument order; otherwise "" |
| FormArgs.FallbackRedundantWhenLookupsAgree | src/AViShaOTA.cpp:339-353 | when the by-name lookup finds the first indexed "password" argument, the fallback scan changes nothing |
| FormArgs.ReadReceivedPassword | src/AViShaOTA.cpp:336-353 | the lookup-then-scan loop with `break` returns exactly the received password defined above |
| WebUpload.RejectedStart | src/AViShaOTA.cpp:328-367 | FILE_START with a configured password and a different received one: answers 401, both password flags false, no sink call, no start callback, `webUpdateInProgress` and the sink's error untouched |
| WebUpload.StartAuthorisesIff | src/AViShaOTA.cpp:328-374 | after FILE_START the two password flags are equal, and they are set if and only if no password is configured or the received one equals it exactly |
| WebUpload.OpenStartAuthorisesAnyRequest | src/AViShaOTA.cpp:334-374 | with an empty configured password every FILE_START sets both flags, whatever was sent |
| WebUpload.AuthorisedStart | src/AViShaOTA.cpp:369-392 | an authorised FILE_START (even with an upload already in progress) invokes the start callback, then `Update.begin(UPDATE_SIZE_UNKNOWN)`; `webUpdateInProgress` ends equal to begin's success; a failed begin keeps both flags set |
| WebUpload.GatedEventsIgnoredUnlessAuthorised | src/AViShaOTA.cpp:394-416 | FILE_WRITE and FILE_END change no state and make no sink call unless both password flags hold |
| WebUpload.AuthorisedWrite | src/AViShaOTA.cpp:394-412 | an authorised FILE_WRITE passes the whole chunk to the sink; `webUpdateInProgress` is cleared exactly when fewer bytes are accepted; the flags stay set |
| WebUpload.AuthorisedEnd | src/AViShaOTA.cpp:413-429 | an authorised FILE_END calls `Update.end(true)`; a failure clears `webUpdateInProgress` and keeps the flags |
| WebUpload.AbortAlwaysEndsSink | src/AViShaOTA.cpp:430-436 | FILE_ABORTED always calls `Update.end()` and clears `webUpdateInProgress`, whatever the password flags |
| WebUpload.FinishOutcome | src/AViShaOTA.cpp:299-320 | the completion handler always clears `webUpdateInProgress` and keeps the password flags; with a sink error it sends 500 and reports false, without one it sends 200, reports true, then restarts; it restarts if and only if the sink has no error |
| WebUpload.UnauthorisedRunIsNoOp | src/AViShaOTA.cpp:394-416 | without both flags, any run of FILE_WRITE and FILE_END events leaves the state unchanged |
| WebUpload.RejectedUploadNeverReachesSink | src/AViShaOTA.cpp:328-416 | a refused FILE_START followed by any chunks and ends: the only effect is the 401, and the flags end false |
| WebUpload.AuthorisedWritesAllForwarded | src/AViShaOTA.cpp:394-412 | once authorised, every chunk reaches the sink in order whatever it answers; `webUpdateInProgress` survives only if every write was complete, and the sink is in error if any was short |
| WebUpload.AuthorisedRunStaysAuthorised | src/AViShaOTA.cpp:394-429 | FILE_WRITE and FILE_END never clear the password flags |
| WebUpload.SuccessfulUpload | src/AViShaOTA.cpp:323-429 | an authorised upload with all sink calls succeeding produces start callback, begin, each chunk in order, `end(true)`; the sink receives exactly the total length of the chunks; the completion handler then sends 200, reports true and restarts |
| WebUpload.DefaultConfigAdmitsAnyUpload | src/AViShaOTA.h:169 | with the `Config()` password every upload passes the password check |
| WebUpload.RejectedUploadStillRestarts | src/AViShaOTA.cpp:299-320 | as written: after a 401-refused upload, a sink without error makes the completion handler send 200, report success and restart |
| WebUpload.RequestWithoutFileStillRestarts | src/AViShaOTA.cpp:299-320 | as written: a request with no file part never meets the password check; with a sink free of error the only response is 200, and the device restarts |
| WebUpload.RunExtendsEffects | src/AViShaOTA.cpp:323-437 | the upload handler only ever appends to the log of effects |
| WebUpload.AuthorisedRunSendsNothing | src/AViShaOTA.cpp:394-429 | once authorised, FILE_WRITE and FILE_END send no HTTP response |
| WebUpload.AcceptedUploadSendsNothing | src/AViShaOTA.cpp:328-429 | the upload events of a request whose FILE_START passed the check send no response and leave it authorised |
| WebUpload.GuardedFinishOfAuthorised | src/AViShaOTA.cpp:299-320 | corrected completion of an authorised request: exactly one response, 500 on a sink error and 200 otherwise; it restarts if and only if there is no error; the password flags are cleared |
| WebUpload.GuardedRequestWithoutFileAnswers401 | src/AViShaOTA.cpp:299-320 | corrected handler: a request with no accepted file start, begun with the flags clear, gets a single 401 and nothing else visible |
| WebUpload.GuardedRequestRestartsOnlyAfterAuthorisedUpload | src/AViShaOTA.cpp:299-320 | corrected handler: an upload request with one file part (a single FILE_START followed only by writes and ends) gets exactly one response (401, 500 or 200); it restarts if and only if its FILE_START passed the check and the sink has no error; the flags end clear for the next request |
| UploadUrl.NatToDecimal | src/AViShaOTA.cpp:484 | `String(int)` of a non-negative port is a non-empty string of decimal digits with no leading zero (only 0 itself starts with '0'); `DecimalRoundTrip` shows it reads back as the number |
| UploadUrl.IntRoundTrip | src/AViShaOTA.cpp:484 | the decimal text of any port, including a negative one, reads back as that port |
| UploadUrl.UploadUrl | src/AViShaOTA.cpp:483-485 | the URL starts with "http://", contains the address right after it followed by ':', then exactly the `String(int)` text of the port, and ends with '/' |
| UploadUrl.UploadUrlRoundTrip | src/AViShaOTA.cpp:483-485 | for an address without ':' the URL determines the address and the port exactly |
| Service.AViShaOta.constructor | src/AViShaOTA.cpp:8-31 | the given hostname and port (defaults "AViShaOTA_ESP32" and 80), no server, no password, mDNS and debug on, every status flag false, every callback slot empty |
| Service.AViShaOta.SetOtaPassword | src/AViShaOTA.cpp:43-45 | replaces the update password only |
| Service.AViShaOta.SetHostname | src/AViShaOTA.cpp:47-49 | replaces the hostname only |
| Service.AViShaOta.EnableMdns | src/AViShaOTA.cpp:51-53 | sets the mDNS toggle only |
| Service.AViShaOta.EnableSerialDebug | src/AViShaOTA.cpp:55-57 | sets the debug toggle only |
| Service.AViShaOta.OnStart | src/AViShaOTA.cpp:60-62 | replaces the OTA-start slot and nothing else |
| Service.AViShaOta.OnEnd | src/AViShaOTA.cpp:64-66 | replaces the OTA-end slot and nothing else |
| Service.AViShaOta.OnProgress | src/AViShaOTA.cpp:68-70 | replaces the progress slot and nothing else |
| Service.AViShaOta.OnError | src/AViShaOTA.cpp:72-74 | replaces the error slot and nothing else |
| Service.AViShaOta.OnWiFiConnected | src/AViShaOTA.cpp:76-78 | replaces the WiFi-connected slot and nothing else |
| Service.AViShaOta.OnWiFiDisconnected | src/AViShaOTA.cpp:80-82 | replaces the WiFi-disconnected slot and nothing else |
| Service.AViShaOta.OnWebUpdateStart | src/AViShaOTA.cpp:84-86 | replaces the web-update-start slot and nothing else |
| Service.AViShaOta.OnWebUpdateEnd | src/AViShaOTA.cpp:88-90 | replaces the web-update-end slot and nothing else |
| Service.AViShaOta.End | src/AViShaOTA.cpp:92-103 | `isInitialized`, `otaInProgress` and `webUpdateInProgress` all become false |
| Service.AViShaOta.Begin | src/AViShaOTA.cpp:118-204 | already initialised: true and no change; missing or empty SSID: false and no change; otherwise the server exists and the object is initialised exactly when the station joined |
| Service.AViShaOta.Handle | src/AViShaOTA.cpp:208-215 | the OTA service and web clients are serviced only while connected and initialised, the clients only if a server exists |
| Service.AViShaOta.OtaStarted | src/AViShaOTA.cpp:225-233 | `otaInProgress` becomes true and the start slot, if set, is invoked |
| Service.AViShaOta.OtaEnded | src/AViShaOTA.cpp:235-243 | `otaInProgress` becomes false and the end slot, if set, is invoked |
| Service.AViShaOta.OtaProgressed | src/AViShaOTA.cpp:245-252 | progress and total pass to the progress slot; no state changes |
| Service.AViShaOta.OtaErrored | src/AViShaOTA.cpp:254-273 | `otaInProgress` becomes false and the error slot, if set, gets the error code |
| Service.AViShaOta.HandleWiFiEvent | src/AViShaOTA.cpp:447-476 | disconnection invokes the disconnected slot; obtaining an IP invokes the connected slot; association and other events invoke nothing |
| Service.AViShaOta.GetUploadUrl | src/AViShaOTA.cpp:483-485 | the URL for the object's current port, as `UploadUrl.UploadUrl` describes it |
| Service.AViShaOta.HandleUpdate | src/AViShaOTA.cpp:323-437 | the new password flags, in-progress flag, sink error and effects are those `WebUpload.Step` computes from the old ones |
| Service.AViShaOta.HandleUpdateFinish | src/AViShaOTA.cpp:299-320 | the new state is the one `WebUpload.Finish` computes |

## Left out

- WiFi association and the 30-second polling loop with `delay` (src/AViShaOTA.cpp:143-168). This is network I/O and timing. `Begin` takes its outcome as the parameter `wifiJoined`.
- `setupArduinoOTA`'s hostname and password registration, `ArduinoOTA.begin/handle/end`, `MDNS.begin/end`, and the `server->stop()` in `end` (src/AViShaOTA.cpp:93-95). These are network services. Their event handlers are modelled as methods of the class.
- Web route registration, the 404 handler, `handleRoot`, and HTTP/multipart parsing (src/AViShaOTA.cpp:277-296). These belong to the transport. Responses are recorded only as their status codes.
- The internals of the `Update` library. The model keeps only its interface: the call log, the caller-supplied answers, and the error-flag rule described above.
- `delay(1000)` and `ESP.restart()`. These are foreign calls; the restart is recorded as an effect and nothing after it is modelled.
- Callback bodies. Invoking a callback is recorded. The callback is assumed not to call back into the object.
- All `Serial` logging, including the progress percentages (src/AViShaOTA.cpp:247, 410). They only feed logs.
- The static `instance` pointer and `wifiEventHandler` trampoline, and the destructor. These are C callback plumbing and memory management.
- The HTML upload page (src/AViShaOTA.cpp:496-754). It is a template.
- The fields `lastWiFiCheck`, `wifiCheckInterval`, `currentConfig`, `lastError` and `startTime`. src/AViShaOTA.cpp never reads or writes them; the `startTime` at src/AViShaOTA.cpp:155 is a local variable that hides the field.
- Member functions the header declares but whose bodies are not part of this model: `setPort`, `enableAutoReconnect`, `setWiFiCheckInterval`, `validatePassword`, `isValidHostname`, `setConfig`, `loadConfig`, `saveConfig`, `beginAP`, the information getters, and the `AViShaOTAUtils` helpers.
- `getVersion` is the constant `OtaConfig.VERSION`.
- The getters `isOTAInProgress` and `isWebUpdateInProgress` (src/AViShaOTA.cpp:105-111) are plain reads of `otaInProgress` and `webUpdateInProgress`, which the class exposes as fields.
- The sink error-flag rule is an assumption about the ESP32 `Update` library, and the library does not always follow it. A `begin` refused because an update is already running returns false without setting the error. A `write` or `end` on a sink that is not running fails without setting it. The flag belongs to the device-wide `Update` object, so constructing `AViShaOta` does not clear it. The error clauses of WebUpload.AuthorisedStart, WebUpload.AuthorisedWrite, WebUpload.AuthorisedEnd and WebUpload.AuthorisedWritesAllForwarded rely on the rule. So does the conclusion drawn from them with WebUpload.FinishOutcome that a failed begin ends in 500 without a restart. When the library departs from the rule, the real completion handler may answer 200 and restart instead.
- The password flags are function-static in the source, so they are shared by every instance. The model has one instance and keeps them as its fields.
- Service.AViShaOta.constructor: does not fix `autoReconnect`, because the source constructor never assigns it.

## Findings

| source | as written | input that shows it | evidently intended | confidence | as-written member | corrected member |
|---|---|---|---|---|---|---|
| src/AViShaOTA.cpp:299-320 | `handleUpdateFinish` decides success only by `Update.hasError()` and never looks at the password flags | password "secret" configured, an upload sending "wrong", sink with no earlier error: FILE_START answers 401, then the completion handler also answers 200, calls the end callback with true, and restarts the device | a refused upload gets one 401 and is neither reported as successful nor followed by a restart | medium, not executed | WebUpload.RejectedUploadStillRestarts | WebUpload.GuardedRequestRestartsOnlyAfterAuthorisedUpload |
| src/AViShaOTA.cpp:299-320 | the same handler runs for a POST to `/update` that has no file part, so the upload handler and its password check never run | freshly booted device with any password configured, a POST to `/update` with no file field: the completion handler answers 200, calls the end callback with true, and restarts the device | a request that passed no password check is answered 401 and does not restart the device | medium, not executed | WebUpload.RequestWithoutFileStillRestarts | WebUpload.GuardedRequestWithoutFileAnswers401 |

The corrected handler is `WebUpload.FinishGuarded`, and `WebUpload.RequestGuarded`
runs a whole request with it. It answers 401 when the request passed no
password check and the upload handler has not already answered. It clears the
password flags after every request, so they never carry over into the next
one. The class keeps the
handler as written, because it models the source.
