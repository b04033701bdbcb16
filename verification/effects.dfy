/**
 * What the service does that can be seen from outside, recorded in the order
 * it happens: HTTP responses, invocations of registered callbacks, calls into
 * the firmware-update sink (`Update`), and the restart.
 */
module Effects {
  import opened Optional

  type Byte = bv8

  /** The identity of a registered callback (a C function pointer that is not null). */
  type Handler = nat

  /** `UPDATE_SIZE_UNKNOWN`: the size passed to `Update.begin` when the image length is not known. */
  const UPDATE_SIZE_UNKNOWN: nat := 0xFFFF_FFFF

  const HTTP_OK: int := 200
  const HTTP_UNAUTHORIZED: int := 401
  const HTTP_SERVER_ERROR: int := 500

  /** The `ota_error_t` codes the ArduinoOTA service reports. */
  datatype OtaError = AuthError | BeginError | ConnectError | ReceiveError | EndError

  /** The argument list a callback is invoked with, one shape per callback slot. */
  datatype Notice =
    | OtaStarted
    | OtaEnded
    | OtaProgress(progress: nat, total: nat)
    | OtaFailed(error: OtaError)
    | WiFiConnected
    | WiFiDisconnected
    | WebUpdateStarted
    | WebUpdateEnded(success: bool)

  /** The calls the service makes on the firmware-update sink. */
  datatype SinkCall =
    | Begin(size: nat)
    | Write(data: seq<Byte>)
    | End(evenIfRemaining: bool)

  datatype Effect =
    | Sent(status: int)
    | Invoked(handler: Handler, notice: Notice)
    | SinkCalled(call: SinkCall)
    | Restarted
    | OtaServiced
    | ClientsServed

  /** Invoking a callback slot: nothing happens when the slot is empty. */
  function Invoke(slot: Option<Handler>, notice: Notice): seq<Effect> {
    if slot.Some? then [Invoked(slot.value, notice)] else []
  }

  /**
   * The sink's error flag (`Update.hasError()`) after a call that succeeded
   * (`ok`) or failed: a failed call leaves the sink in error, a successful
   * `begin` starts afresh without one, and other successful calls keep
   * whatever error there was.
   */
  function SinkErrorAfter(hadError: bool, call: SinkCall, ok: bool): bool {
    if !ok then true
    else if call.Begin? then false
    else hadError
  }

  /** Number of image bytes handed to the sink in a log of effects. */
  function BytesForwarded(log: seq<Effect>): nat {
    if log == [] then 0
    else
      var here := if log[0].SinkCalled? && log[0].call.Write? then |log[0].call.data| else 0;
      here + BytesForwarded(log[1..])
  }

  lemma {:induction false} BytesForwardedAppend(a: seq<Effect>, b: seq<Effect>)
    ensures BytesForwarded(a + b) == BytesForwarded(a) + BytesForwarded(b)
  {
    if a == [] {
      assert a + b == b;
    } else {
      assert (a + b)[0] == a[0];
      assert (a + b)[1..] == a[1..] + b;
      BytesForwardedAppend(a[1..], b);
    }
  }

  /** The HTTP status codes sent in a log of effects, in order. */
  function Responses(log: seq<Effect>): seq<int> {
    if log == [] then []
    else (if log[0].Sent? then [log[0].status] else []) + Responses(log[1..])
  }

  lemma {:induction false} ResponsesAppend(a: seq<Effect>, b: seq<Effect>)
    ensures Responses(a + b) == Responses(a) + Responses(b)
  {
    if a == [] {
      assert a + b == b;
    } else {
      assert (a + b)[0] == a[0];
      assert (a + b)[1..] == a[1..] + b;
      ResponsesAppend(a[1..], b);
    }
  }
}
